/** `saveMemory` of `internal/transport/http/handler.go`: the markdown log is written first, the database row second, and a
    retry adopts the entry that an interrupted save left behind. One mutex makes every save atomic to the others. */
module SaveProtocol {
  import opened Clock
  import opened Collections
  import opened Text
  import opened Markdown

  const DAILY_MARKDOWN_VERSION := 1

  /** One daily file of one user and agent. */
  datatype FileKey = FileKey(userId: string, agentId: string, day: int)

  /** A database row. Its time has been through a timestamp, so it is a whole second. */
  datatype Row = Row(memory: Memory, version: int)

  datatype State = State(files: map<FileKey, string>, rows: map<string, Row>)

  /** What can go wrong outside the program: the lookup, the file write before it starts, or the database save. A crash
      after the markdown write leaves the same stores as a failing database. */
  datatype Fault = NoFault | LookupFails | WriteFails | DatabaseFails

  datatype SaveResult = SaveResult(markdownSynced: bool, error: Option<Error>)

  // ---- Parts ----

  function Normalize(item: Memory): Memory {
    item.(id := TrimSpace(item.id), agentId := TrimSpace(item.agentId), userId := TrimSpace(item.userId),
          question := TrimSpace(item.question), answer := TrimSpace(item.answer))
  }

  predicate ValidIds(item: Memory) {
    ValidPathId(item.userId) && ValidPathId(item.agentId) && ValidMarkerId(item.id)
  }

  predicate SameContent(left: Memory, right: Memory) {
    left.id == right.id && left.agentId == right.agentId && left.userId == right.userId
    && left.question == right.question && left.answer == right.answer
  }

  function KeyOf(item: Memory): FileKey {
    FileKey(item.userId, item.agentId, Day(item.recordedAt))
  }

  predicate OwnedBy(k: FileKey, userId: string, agentId: string) {
    k.userId == userId && k.agentId == agentId
  }

  function Entries(st: Stamps, files: map<FileKey, string>, k: FileKey): Result<map<string, Entry>> {
    if k in files then Parse(st, files[k]) else Err(MarkdownError)
  }

  /** The daily files of one user and agent that hold an entry with this ID. */
  ghost function Holders(st: Stamps, files: map<FileKey, string>, userId: string, agentId: string, id: string): set<FileKey> {
    set k | k in files && OwnedBy(k, userId, agentId) && Parse(st, files[k]).Ok? && id in Parse(st, files[k]).value
  }

  ghost predicate AllAccepted(st: Stamps, files: map<FileKey, string>, userId: string, agentId: string) {
    forall k | k in files && OwnedBy(k, userId, agentId) :: Parse(st, files[k]).Ok?
  }

  /** `findMemoryMarkdownEntry`: an error if any file of the user and agent is not accepted, or two hold the ID. */
  ghost function FindEntry(st: Stamps, files: map<FileKey, string>, userId: string, agentId: string, id: string)
    : Result<Option<Entry>>
  {
    var holders := Holders(st, files, userId, agentId, id);
    if !AllAccepted(st, files, userId, agentId) || |holders| > 1 then Err(MarkdownError)
    else if holders == {} then Ok(None)
    else
      var k := OneOf(holders);
      Ok(Some(Parse(st, files[k]).value[id]))
  }

  ghost function OneOf<T>(s: set<T>): (x: T)
    requires s != {}
    ensures x in s
  {
    SomeElementExists(s);
    var x :| x in s;
    x
  }

  lemma SomeElementExists<T>(s: set<T>)
    requires s != {}
    ensures exists x :: x in s
  {
    var x := SomeElement(s);
  }

  /** `writeMemoryMarkdown`, for a file nobody else creates in between. */
  function WriteMarkdown(st: Stamps, files: map<FileKey, string>, item: Memory): Result<map<FileKey, string>> {
    var k := KeyOf(item);
    if item.recordedAt == ZERO_TIME then Err(MarkdownError)
    else if k in files then
      var _ :- Parse(st, files[k]);
      var content :- RenderAppend(st, item);
      Ok(files[k := files[k] + content])
    else
      var content :- RenderFile(st, item);
      Ok(files[k := content])
  }

  /** What a save of a normalised memory finds it has to do. */
  datatype Plan = Reject(error: Error) | Done | Adopt(entry: Entry) | Write

  ghost function PlanFor(st: Stamps, s: State, item: Memory): Plan {
    if item.id in s.rows then
      var stored := s.rows[item.id];
      if stored.version != DAILY_MARKDOWN_VERSION || !SameContent(stored.memory, item) then Reject(Conflict)
      else if stored.memory.recordedAt == ZERO_TIME then Reject(MarkdownError)
      else
        var entries := Entries(st, s.files, KeyOf(stored.memory));
        if entries.Err? || item.id !in entries.value || !MatchesMemory(st, entries.value[item.id], item) then
          Reject(MarkdownError)
        else Done
    else
      match FindEntry(st, s.files, item.userId, item.agentId, item.id)
      case Err(e) => Reject(e)
      case Ok(Some(orphan)) => if MatchesMemory(st, orphan, item) then Adopt(orphan) else Reject(Conflict)
      case Ok(None) => Write
  }

  function RowFor(item: Memory): Row {
    Row(item.(recordedAt := Whole(item.recordedAt)), DAILY_MARKDOWN_VERSION)
  }

  /** Carrying the plan out. */
  function Perform(st: Stamps, s: State, item: Memory, plan: Plan, fault: Fault): (State, SaveResult) {
    match plan
    case Reject(e) => (s, SaveResult(false, Some(e)))
    case Done => (s, SaveResult(true, None))
    case Adopt(entry) =>
      if fault == DatabaseFails then (s, SaveResult(true, Some(DatabaseError)))
      else (s.(rows := s.rows[item.id := RowFor(item.(recordedAt := entry.recordedAt))]), SaveResult(true, None))
    case Write =>
      if fault == WriteFails then (s, SaveResult(false, Some(MarkdownError)))
      else
        match WriteMarkdown(st, s.files, item)
        case Err(e) => (s, SaveResult(false, Some(e)))
        case Ok(files) =>
          if fault == DatabaseFails then (s.(files := files), SaveResult(true, Some(DatabaseError)))
          else (State(files, s.rows[item.id := RowFor(item)]), SaveResult(true, None))
  }

  /** One save: the stores after it, and the answer. */
  ghost function Save(st: Stamps, s: State, raw: Memory, now: Time, fault: Fault): (State, SaveResult) {
    var item := Normalize(raw).(recordedAt := now);
    if !ValidIds(item) then (s, SaveResult(false, Some(InvalidRequest)))
    else if fault == LookupFails then (s, SaveResult(false, Some(DatabaseError)))
    else Perform(st, s, item, PlanFor(st, s, item), fault)
  }

  // ---- The handler ----

  class Handlers {
    const st: Stamps
    var files: map<FileKey, string>
    var rows: map<string, Row>

    ghost function Value(): State
      reads this
    {
      State(files, rows)
    }

    constructor (st: Stamps, rows: map<string, Row>)
      ensures this.st == st && Value() == State(map[], rows)
    {
      this.st, this.rows := st, rows;
      files := map[];
    }

    /** The search for an orphaned entry reads every daily file of the user and agent. */
    method FindMemoryMarkdownEntry(userId: string, agentId: string, id: string) returns (r: Result<Option<Entry>>)
      ensures r == FindEntry(st, files, userId, agentId, id)
    {
      hide Parse;
      var found: Option<Entry> := None;
      var rest := files.Keys;
      ghost var holders: set<FileKey> := {};
      while rest != {}
        invariant rest <= files.Keys
        invariant forall k | k in files && k !in rest && OwnedBy(k, userId, agentId) :: Parse(st, files[k]).Ok?
        invariant holders == set k | k in Holders(st, files, userId, agentId, id) && k !in rest
        invariant found.None? ==> holders == {}
        invariant found.Some? ==> exists k :: holders == {k} && found.value == Parse(st, files[k]).value[id]
        decreases rest
      {
        ghost var _ := SomeElement(rest);
        var k :| k in rest;
        rest := rest - {k};
        if !OwnedBy(k, userId, agentId) {
          continue;
        }
        var entries := Parse(st, files[k]);
        if entries.Err? {
          return Err(MarkdownError);
        }
        if id !in entries.value {
          continue;
        }
        if found.Some? {
          ghost var other :| holders == {other};
          TwoHolders(Holders(st, files, userId, agentId, id), k, other);
          return Err(MarkdownError);
        }
        found := Some(entries.value[id]);
        holders := {k};
      }
      assert holders == Holders(st, files, userId, agentId, id);
      return Ok(found);
    }

    method WriteMemoryMarkdown(item: Memory) returns (error: Option<Error>)
      modifies this`files
      ensures match WriteMarkdown(st, old(files), item)
              case Ok(written) => error == None && files == written
              case Err(e) => error == Some(e) && files == old(files)
    {
      hide Parse, RenderAppend, RenderFile;
      if item.recordedAt == ZERO_TIME {
        return Some(MarkdownError);
      }
      var k := KeyOf(item);
      if k in files {
        var entries := Parse(st, files[k]);
        if entries.Err? {
          return Some(entries.error);
        }
        var content := RenderAppend(st, item);
        if content.Err? {
          return Some(content.error);
        }
        files := files[k := files[k] + content.value];
        return None;
      }
      var content := RenderFile(st, item);
      if content.Err? {
        return Some(content.error);
      }
      files := files[k := content.value];
      return None;
    }

    /** The insert of the memory store; it fails when the environment says so. */
    method Insert(item: Memory, fault: Fault) returns (error: Option<Error>)
      requires item.id !in rows
      modifies this`rows
      ensures fault == DatabaseFails ==> error == Some(DatabaseError) && rows == old(rows)
      ensures fault != DatabaseFails ==> error == None && rows == old(rows)[item.id := RowFor(item)]
    {
      if fault == DatabaseFails {
        return Some(DatabaseError);
      }
      rows := rows[item.id := RowFor(item)];
      return None;
    }

    method SaveMemory(raw: Memory, now: Time, fault: Fault) returns (r: SaveResult)
      modifies this`files, this`rows
      ensures (Value(), r) == Save(st, old(Value()), raw, now, fault)
    {
      hide Parse, FindEntry, WriteMarkdown, ValidPathId, ValidMarkerId, MatchesMemory, TrimSpace;
      var item := Normalize(raw);
      if !ValidPathId(item.userId) || !ValidPathId(item.agentId) || !ValidMarkerId(item.id) {
        return SaveResult(false, Some(InvalidRequest));
      }
      item := item.(recordedAt := now);
      if fault == LookupFails {
        return SaveResult(false, Some(DatabaseError));
      }
      if item.id in rows {
        var stored := rows[item.id];
        if stored.version != DAILY_MARKDOWN_VERSION || !SameContent(stored.memory, item) {
          return SaveResult(false, Some(Conflict));
        }
        if stored.memory.recordedAt == ZERO_TIME {
          return SaveResult(false, Some(MarkdownError));
        }
        var entries := Entries(st, files, KeyOf(stored.memory));
        if entries.Err? || item.id !in entries.value || !MatchesMemory(st, entries.value[item.id], item) {
          return SaveResult(false, Some(MarkdownError));
        }
        return SaveResult(true, None);
      }
      var orphan := FindMemoryMarkdownEntry(item.userId, item.agentId, item.id);
      if orphan.Err? {
        return SaveResult(false, Some(orphan.error));
      }
      if orphan.value.Some? {
        if !MatchesMemory(st, orphan.value.value, item) {
          return SaveResult(false, Some(Conflict));
        }
        item := item.(recordedAt := orphan.value.value.recordedAt);
        var error := Insert(item, fault);
        return SaveResult(true, error);
      }
      if fault == WriteFails {
        return SaveResult(false, Some(MarkdownError));
      }
      var written := WriteMemoryMarkdown(item);
      if written.Some? {
        return SaveResult(false, written);
      }
      var error := Insert(item, fault);
      return SaveResult(true, error);
    }
  }

  lemma TwoHolders(holders: set<FileKey>, k: FileKey, other: FileKey)
    requires k in holders && other in holders && k != other
    ensures |holders| > 1
  {
    assert {k, other} <= holders;
    assert |holders| == |{k, other}| + |holders - {k, other}|;
  }
}
