/** What a save answers and leaves behind, case by case; which IDs may name a directory; and that no two logs share a file. */
module SaveAnswers {
  import opened Clock
  import opened Text
  import opened Markdown
  import opened SaveProtocol

  // ---- The answers ----

  /** The stored row is a version-1 row of the very same memory. */
  predicate SameRow(s: State, item: Memory)
    requires item.id in s.rows
  {
    var row := s.rows[item.id];
    && row.version == 1
    && (row.memory.id, row.memory.agentId, row.memory.userId) == (item.id, item.agentId, item.userId)
    && (row.memory.question, row.memory.answer) == (item.question, item.answer)
  }

  /** The database row of a new memory: its time is cut to the second. */
  ghost predicate NewRow(rows: map<string, Row>, rows': map<string, Row>, item: Memory, recordedAt: Time) {
    rows' == rows[item.id := Row(item.(recordedAt := recordedAt - recordedAt % SECOND), 1)]
  }

  /** The daily file after a new entry, all others unchanged. */
  ghost predicate Logged(st: Stamps, files: map<FileKey, string>, files': map<FileKey, string>, item: Memory) {
    var k := FileKey(item.userId, item.agentId, item.recordedAt / DAY);
    files' == files[k := if k in files then files[k] + "\n---\n\n" + EntryText(st, item)
                         else "# Memory\n\nUserID: " + item.userId + "\nAgentID: " + item.agentId + "\n\n" + EntryText(st, item)]
  }

  /** Files and rows as they are, and the answer. */
  ghost predicate Refused(s: State, t: State, r: SaveResult, error: Error) {
    t == s && r == SaveResult(false, Some(error))
  }

  /** A memory that has an entry but no row: its row is added if the entry is its own. */
  ghost predicate Adopted(st: Stamps, s: State, t: State, r: SaveResult, item: Memory, e: Entry, fault: Fault) {
    if e.id != item.id || e.payload != Payload(st, item, e.recordedAt) then Refused(s, t, r, Conflict)
    else if fault == DatabaseFails then t == s && r == SaveResult(true, Some(DatabaseError))
    else t.files == s.files && NewRow(s.rows, t.rows, item, e.recordedAt) && r == SaveResult(true, None)
  }

  /** A new memory: first the entry, then the row. A database that fails leaves the entry, and the answer says so. */
  ghost predicate Written(st: Stamps, s: State, t: State, r: SaveResult, item: Memory, fault: Fault) {
    if fault == WriteFails || item.recordedAt == ZERO_TIME then Refused(s, t, r, MarkdownError)
    else if fault == DatabaseFails then
      Logged(st, s.files, t.files, item) && t.rows == s.rows && r == SaveResult(true, Some(DatabaseError))
    else
      Logged(st, s.files, t.files, item) && NewRow(s.rows, t.rows, item, item.recordedAt)
      && r == SaveResult(true, None)
  }

  /** A memory that has a row: the same memory again succeeds if the log still backs the row; nothing is written. */
  ghost predicate Repeated(st: Stamps, s: State, t: State, r: SaveResult, item: Memory)
    requires item.id in s.rows
  {
    var recordedAt := s.rows[item.id].memory.recordedAt;
    var k := FileKey(item.userId, item.agentId, recordedAt / DAY);
    if !SameRow(s, item) then Refused(s, t, r, Conflict)
    else if
      && recordedAt != ZERO_TIME && k in s.files && Parse(st, s.files[k]).Ok? && item.id in Parse(st, s.files[k]).value
      && var e := Parse(st, s.files[k]).value[item.id];
         e.id == item.id && e.payload == Payload(st, item, e.recordedAt)
    then t == s && r == SaveResult(true, None)
    else Refused(s, t, r, MarkdownError)
  }

  lemma RowAnswers(st: Stamps, s: State, item: Memory, fault: Fault)
    requires item.id in s.rows
    ensures var (t, r) := Perform(st, s, item, PlanFor(st, s, item), fault);
            Repeated(st, s, t, r, item)
  {
    hide Parse, Payload, WriteMarkdown, FindEntry;
  }

  /** The log of the item's owner can be read, and holds its ID once at most. */
  ghost predicate Searchable(st: Stamps, s: State, item: Memory) {
    AllAccepted(st, s.files, item.userId, item.agentId)
    && |Holders(st, s.files, item.userId, item.agentId, item.id)| <= 1
  }

  lemma SearchAnswers(st: Stamps, s: State, item: Memory, fault: Fault)
    requires item.id !in s.rows && !Searchable(st, s, item)
    ensures var (t, r) := Perform(st, s, item, PlanFor(st, s, item), fault);
            Refused(s, t, r, MarkdownError)
  {
    hide AllAccepted, Holders, WriteMarkdown;
  }

  /** The same, for the entry in file `k`. */
  ghost predicate AdoptedFrom(st: Stamps, s: State, t: State, r: SaveResult, item: Memory, k: FileKey, fault: Fault)
    requires k in Holders(st, s.files, item.userId, item.agentId, item.id)
  {
    Adopted(st, s, t, r, item, Parse(st, s.files[k]).value[item.id], fault)
  }

  lemma AdoptAnswers(st: Stamps, s: State, item: Memory, k: FileKey, fault: Fault)
    requires item.id !in s.rows && Searchable(st, s, item)
    requires k in Holders(st, s.files, item.userId, item.agentId, item.id)
    ensures var (t, r) := Perform(st, s, item, PlanFor(st, s, item), fault);
            AdoptedFrom(st, s, t, r, item, k, fault)
  {
    EntryIsFound(st, s, item, k);
    hide Parse, FindEntry, Holders, Searchable, Adopted, Perform, PlanFor;
    var e := Parse(st, s.files[k]).value[item.id];
    FoundIsAdopted(st, s, item, e, fault);
  }

  lemma FoundIsAdopted(st: Stamps, s: State, item: Memory, e: Entry, fault: Fault)
    requires item.id !in s.rows && FindEntry(st, s.files, item.userId, item.agentId, item.id) == Ok(Some(e))
    ensures var (t, r) := Perform(st, s, item, PlanFor(st, s, item), fault);
            Adopted(st, s, t, r, item, e, fault)
  {
    hide Parse, Payload, WriteMarkdown, FindEntry;
  }

  lemma EntryIsFound(st: Stamps, s: State, item: Memory, k: FileKey)
    requires Searchable(st, s, item) && k in Holders(st, s.files, item.userId, item.agentId, item.id)
    ensures FindEntry(st, s.files, item.userId, item.agentId, item.id) == Ok(Some(Parse(st, s.files[k]).value[item.id]))
  {
    hide Parse, AllAccepted;
    var holders := Holders(st, s.files, item.userId, item.agentId, item.id);
    OnlyOne(holders, k);
  }

  lemma OnlyOne(holders: set<FileKey>, k: FileKey)
    requires |holders| <= 1 && k in holders
    ensures holders != {} && OneOf(holders) == k
  {
    var other := OneOf(holders);
    if other != k {
      TwoHolders(holders, k, other);
    }
  }

  lemma WriteAnswers(st: Stamps, s: State, item: Memory, fault: Fault)
    requires ValidMarkerId(item.id) && item.id !in s.rows && Searchable(st, s, item)
    requires Holders(st, s.files, item.userId, item.agentId, item.id) == {}
    ensures var (t, r) := Perform(st, s, item, PlanFor(st, s, item), fault);
            Written(st, s, t, r, item, fault)
  {
    hide Parse, EntryText, ValidMarkerId, Header;
    assert PlanFor(st, s, item).Write?;
    WriteIsLogged(st, s, item);
    hide PlanFor, WriteMarkdown, Searchable, Holders, Logged;
  }

  lemma WriteIsLogged(st: Stamps, s: State, item: Memory)
    requires ValidMarkerId(item.id) && Searchable(st, s, item)
    ensures item.recordedAt == ZERO_TIME ==> WriteMarkdown(st, s.files, item) == Err(MarkdownError)
    ensures item.recordedAt != ZERO_TIME ==>
              && WriteMarkdown(st, s.files, item).Ok?
              && Logged(st, s.files, WriteMarkdown(st, s.files, item).value, item)
  {
    hide Parse, EntryText, ValidMarkerId, Holders;
    var k := KeyOf(item);
    if k in s.files {
      assert OwnedBy(k, item.userId, item.agentId);
      assert s.files[k] + (SEPARATOR + EntryText(st, item)) == s.files[k] + "\n---\n\n" + EntryText(st, item);
    }
  }

  /** Every answer of a save, and what it does to the stores: whatever is stored, whatever the IDs and whatever fails. */
  lemma AnswerTable(st: Stamps, s: State, raw: Memory, now: Time, fault: Fault)
    ensures var item := Memory(TrimSpace(raw.id), TrimSpace(raw.agentId), TrimSpace(raw.userId), TrimSpace(raw.question),
                               TrimSpace(raw.answer), now);
            var (t, r) := Save(st, s, raw, now, fault);
            var holders := Holders(st, s.files, item.userId, item.agentId, item.id);
            if !(ValidPathId(item.userId) && ValidPathId(item.agentId) && ValidMarkerId(item.id)) then
              Refused(s, t, r, InvalidRequest)
            else if fault == LookupFails then Refused(s, t, r, DatabaseError)
            else if item.id in s.rows then Repeated(st, s, t, r, item)
            else if !Searchable(st, s, item) then Refused(s, t, r, MarkdownError)
            else if holders == {} then Written(st, s, t, r, item, fault)
            else forall k | k in holders :: AdoptedFrom(st, s, t, r, item, k, fault)
  {
    hide Parse, TrimSpace, Perform, PlanFor, Holders, Repeated, Searchable, Written, AdoptedFrom, ValidPathId, ValidMarkerId;
    var item := Normalize(raw).(recordedAt := now);
    var holders := Holders(st, s.files, item.userId, item.agentId, item.id);
    if ValidIds(item) && fault != LookupFails {
      if item.id in s.rows {
        RowAnswers(st, s, item, fault);
      } else if !Searchable(st, s, item) {
        SearchAnswers(st, s, item, fault);
      } else if holders == {} {
        WriteAnswers(st, s, item, fault);
      } else {
        forall k | k in holders
          ensures var (t, r) := Perform(st, s, item, PlanFor(st, s, item), fault);
                  AdoptedFrom(st, s, t, r, item, k, fault)
        {
          AdoptAnswers(st, s, item, k, fault);
        }
      }
    }
  }

  // ---- The text of an entry ----

  /** An entry as the file holds it: its payload between two marks, the first of which tells the ID and the length. */
  lemma EntryFormat(st: Stamps, item: Memory)
    ensures var payload :=
              "## Memory\n\nMemoryID: " + item.id + "\nRecordedAt: " + st.format(item.recordedAt)
              + "\n\n## Question\n\n" + item.question + "\n\n## Answer\n\n" + item.answer + "\n";
            EntryText(st, item) ==
            ("<!-- MemoryEntry:BEGIN id=" + item.id + " bytes=" + Decimal(|payload|) + " -->") + "\n" + payload
            + ("<!-- MemoryEntry:END id=" + item.id + " -->") + "\n"
  {
  }

  // ---- Paths ----

  /** An ASCII letter, a digit, a hyphen or an underscore. */
  predicate NameCode(code: int) {
    0x41 <= code <= 0x5A || 0x61 <= code <= 0x7A || 0x30 <= code <= 0x39 || code == 0x2D || code == 0x5F
  }

  /** The IDs that may name a directory. */
  lemma ValidPathIdIff(value: string)
    ensures ValidPathId(value) <==> |value| > 0 && forall i | 0 <= i < |value| :: NameCode(value[i] as int)
  {
    hide TrimSpace, Trimmed;
    assert forall i | 0 <= i < |value| :: IsPathChar(value[i]) <==> NameCode(value[i] as int);
    if value != "" && forall i | 0 <= i < |value| :: IsPathChar(value[i]) {
      PlainIsTrimmed(value);
    }
  }

  /** The path of a daily file; `date` writes the day as `2006-01-02`. */
  function PathOf(base: string, k: FileKey, date: int -> string): string {
    base + "/" + k.userId + "/" + k.agentId + "/" + date(k.day) + "_Memory.md"
  }

  lemma ValidHasNoSlash(value: string)
    requires ValidPathId(value)
    ensures '/' !in value
  {
  }

  lemma FirstSlash(a: string, x: string)
    requires '/' !in a
    ensures (a + "/" + x)[|a|] == '/' && forall i | 0 <= i < |a| :: (a + "/" + x)[i] != '/'
  {
    assert forall i | 0 <= i < |a| :: (a + "/" + x)[i] == a[i];
  }

  lemma SlashSplits(a: string, x: string, b: string, y: string)
    requires '/' !in a && '/' !in b && a + "/" + x == b + "/" + y
    ensures a == b && x == y
  {
    var (s, t) := (a + "/" + x, b + "/" + y);
    FirstSlash(a, x);
    FirstSlash(b, y);
    assert s[..|a|] == a && t[..|b|] == b && s[|a| + 1..] == x && t[|b| + 1..] == y;
  }

  lemma SameFront(base: string, x: string, y: string)
    requires base + x == base + y
    ensures x == y
  {
    assert (base + x)[|base|..] == x && (base + y)[|base|..] == y;
  }

  lemma SameBack(x: string, y: string, back: string)
    requires x + back == y + back
    ensures x == y
  {
    assert (x + back)[..|x|] == x && (y + back)[..|y|] == y;
  }

  /** Different owners, and different days of one owner, have different files: with valid IDs, the path of a daily file tells
      its user, its agent and its day. */
  lemma PathsDiffer(base: string, k: FileKey, l: FileKey, date: int -> string)
    requires ValidPathId(k.userId) && ValidPathId(k.agentId) && ValidPathId(l.userId) && ValidPathId(l.agentId)
    requires forall d, e | date(d) == date(e) :: d == e
    ensures PathOf(base, k, date) == PathOf(base, l, date) <==> k == l
  {
    hide ValidPathId;
    if PathOf(base, k, date) == PathOf(base, l, date) {
      ValidHasNoSlash(k.userId);
      ValidHasNoSlash(l.userId);
      ValidHasNoSlash(k.agentId);
      ValidHasNoSlash(l.agentId);
      var (fileK, fileL) := (date(k.day) + "_Memory.md", date(l.day) + "_Memory.md");
      var (restK, restL) := (k.agentId + "/" + fileK, l.agentId + "/" + fileL);
      assert PathOf(base, k, date) == (base + "/") + (k.userId + "/" + restK);
      assert PathOf(base, l, date) == (base + "/") + (l.userId + "/" + restL);
      SameFront(base + "/", k.userId + "/" + restK, l.userId + "/" + restL);
      SlashSplits(k.userId, restK, l.userId, restL);
      SlashSplits(k.agentId, fileK, l.agentId, fileL);
      SameBack(date(k.day), date(l.day), "_Memory.md");
    }
  }
}
