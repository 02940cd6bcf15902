/** What the save protocol keeps in every run, and why repeating an interrupted save is safe. */
module SaveLaws {
  import opened Clock
  import opened Text
  import opened Markdown
  import opened MarkdownLaws
  import opened SaveProtocol

  // ---- The invariant ----

  /** A daily file is accepted, and holds only entries of its day. */
  ghost predicate FileInv(st: Stamps, k: FileKey, content: string) {
    && Parse(st, content).Ok?
    && forall id | id in Parse(st, content).value ::
         var e := Parse(st, content).value[id];
         e.id == id && Whole(e.recordedAt) == e.recordedAt && Datable(e.recordedAt) && Day(e.recordedAt) == k.day
  }

  /** The entries of a daily file; none if there is no such file. */
  ghost function EntriesOf(st: Stamps, files: map<FileKey, string>, k: FileKey): map<string, Entry> {
    if k in files && Parse(st, files[k]).Ok? then Parse(st, files[k]).value else map[]
  }

  ghost predicate Apart(x: map<string, Entry>, y: map<string, Entry>) {
    forall id | id in x :: id !in y
  }

  /** No ID occurs in two daily files of one user and agent. */
  ghost predicate FilesInv(st: Stamps, files: map<FileKey, string>) {
    && (forall k | k in files :: FileInv(st, k, files[k]))
    && (forall k, l | k in files && l in files && k != l && OwnedBy(l, k.userId, k.agentId) ::
          Apart(EntriesOf(st, files, k), EntriesOf(st, files, l)))
  }

  /** A version-1 row has valid IDs, and a matching entry in the daily file of its own time. */
  ghost predicate RowInv(st: Stamps, files: map<FileKey, string>, id: string, row: Row) {
    && row.memory.id == id
    && (row.version == DAILY_MARKDOWN_VERSION ==>
          var k := KeyOf(row.memory);
          && ValidIds(row.memory) && Datable(row.memory.recordedAt)
          && k in files && Parse(st, files[k]).Ok? && id in Parse(st, files[k]).value
          && Parse(st, files[k]).value[id].recordedAt == row.memory.recordedAt
          && MatchesMemory(st, Parse(st, files[k]).value[id], row.memory))
  }

  ghost predicate Inv(st: Stamps, s: State) {
    FilesInv(st, s.files) && forall id | id in s.rows :: RowInv(st, s.files, id, s.rows[id])
  }

  /** Before the first save there are no files, and only rows of older versions. */
  ghost predicate Initial(s: State) {
    s.files == map[] && forall id | id in s.rows :: s.rows[id].memory.id == id && s.rows[id].version != DAILY_MARKDOWN_VERSION
  }

  /** Files only grow, no entry and no row ever changes. */
  ghost predicate Keeps(st: Stamps, s: State, t: State) {
    && (forall k | k in s.files ::
          && k in t.files && s.files[k] <= t.files[k]
          && Parse(st, s.files[k]).Ok? && Parse(st, t.files[k]).Ok?
          && forall id | id in Parse(st, s.files[k]).value ::
               id in Parse(st, t.files[k]).value && Parse(st, t.files[k]).value[id] == Parse(st, s.files[k]).value[id])
    && (forall id | id in s.rows :: id in t.rows && t.rows[id] == s.rows[id])
  }

  lemma KeepsTransitive(st: Stamps, s: State, t: State, u: State)
    requires Keeps(st, s, t) && Keeps(st, t, u)
    ensures Keeps(st, s, u)
  {
    hide Parse;
  }

  /** Truncating to the second keeps the second and the day. */
  lemma WholeKeepsDay(t: Time)
    requires Datable(t)
    ensures Whole(Whole(t)) == Whole(t) && Datable(Whole(t)) && Day(Whole(t)) == Day(t)
  {
    var (seconds, days) := (t / SECOND, t / DAY);
    assert Whole(t) == seconds * SECOND;
    assert days * DAY <= t < days * DAY + DAY;
    assert days * DAY == (days * 86_400) * SECOND;
    assert days * 86_400 <= seconds;
  }

  // ---- Writing ----

  /** The item a save works on after validation. */
  ghost predicate Ready(item: Memory) {
    ValidIds(item) && Normalize(item) == item && Datable(item.recordedAt)
  }

  lemma NormalizedIsReady(raw: Memory, now: Time)
    requires Datable(now) && ValidIds(Normalize(raw).(recordedAt := now))
    ensures Ready(Normalize(raw).(recordedAt := now))
  {
    hide TrimSpace, ValidPathId, ValidMarkerId;
    TrimSpaceIsTrimmed(raw.id);
    TrimSpaceIsTrimmed(raw.agentId);
    TrimSpaceIsTrimmed(raw.userId);
    TrimSpaceIsTrimmed(raw.question);
    TrimSpaceIsTrimmed(raw.answer);
  }

  lemma ReadyIsLoggable(item: Memory)
    requires Ready(item)
    ensures Loggable(item) && item.recordedAt != ZERO_TIME && ValidPathId(item.userId) && ValidPathId(item.agentId)
  {
    hide TrimSpace, ValidPathId, ValidMarkerId;
    assert Normalize(item).id == item.id;
  }

  lemma ReadyHasValidIds(item: Memory)
    requires Ready(item)
    ensures ValidIds(item) && ValidIds(RowFor(item).memory)
  {
    hide ValidPathId, ValidMarkerId, Normalize, Datable;
  }

  /** A write adds exactly the new entry to exactly one file, at its end. */
  lemma WriteAddsEntry(st: Stamps, files: map<FileKey, string>, item: Memory)
    requires Lawful(st) && Ready(item) && FilesInv(st, files) && item.id !in EntriesOf(st, files, KeyOf(item))
    ensures WriteMarkdown(st, files, item).Ok?
    ensures var (k, files') := (KeyOf(item), WriteMarkdown(st, files, item).value);
            && files'.Keys == files.Keys + {k}
            && (forall l | l in files && l != k :: files'[l] == files[l])
            && (k in files ==> files[k] <= files'[k])
            && Parse(st, files'[k]) == Ok(EntriesOf(st, files, k)[item.id := EntryOf(st, item)])
  {
    hide Parse, EntryText, Header, EntryOf, Loggable, Ready, ValidPathId, ValidMarkerId, Lawful;
    ReadyIsLoggable(item);
    var k := KeyOf(item);
    assert RenderEntry(st, item) == Ok(EntryText(st, item)) by {
      assert Loggable(item);
      LoggableIdIsValid(item);
    }
    if k in files {
      assert FileInv(st, k, files[k]);
      AppendParses(st, files[k], item);
      assert files[k] + (SEPARATOR + EntryText(st, item)) == files[k] + SEPARATOR + EntryText(st, item);
    } else {
      CreateParses(st, item);
    }
  }

  lemma LoggableIdIsValid(item: Memory)
    requires Loggable(item)
    ensures ValidMarkerId(item.id)
  {
  }

  lemma EntryOfDay(st: Stamps, item: Memory)
    requires Ready(item)
    ensures var e := EntryOf(st, item);
            e.id == item.id && Whole(e.recordedAt) == e.recordedAt && Datable(e.recordedAt)
            && Day(e.recordedAt) == KeyOf(item).day
  {
    hide Payload, ValidIds, Normalize, TrimSpace;
    WholeKeepsDay(item.recordedAt);
  }

  lemma WriteKeepsFiles(st: Stamps, files: map<FileKey, string>, item: Memory)
    requires Lawful(st) && Ready(item) && FilesInv(st, files)
    requires Holders(st, files, item.userId, item.agentId, item.id) == {}
    ensures WriteMarkdown(st, files, item).Ok?
    ensures FilesInv(st, WriteMarkdown(st, files, item).value)
    ensures Keeps(st, State(files, map[]), State(WriteMarkdown(st, files, item).value, map[]))
    ensures Entries(st, WriteMarkdown(st, files, item).value, KeyOf(item))
            == Ok(EntriesOf(st, files, KeyOf(item))[item.id := EntryOf(st, item)])
  {
    hide Parse, EntryOf, WriteMarkdown, Ready, Lawful;
    var k := KeyOf(item);
    assert k !in Holders(st, files, item.userId, item.agentId, item.id);
    assert item.id !in EntriesOf(st, files, k);
    WriteAddsEntry(st, files, item);
    EntryOfDay(st, item);
    GrownFilesInv(st, files, WriteMarkdown(st, files, item).value, item, EntryOf(st, item));
  }

  /** `files'` has one more entry than `files`: `e`, in the item's file, under an ID that was in none. */
  ghost predicate OneMore(st: Stamps, files: map<FileKey, string>, files': map<FileKey, string>, item: Memory, e: Entry) {
    var k := KeyOf(item);
    && files'.Keys == files.Keys + {k}
    && (forall l | l in files && l != k :: files'[l] == files[l])
    && (k in files ==> files[k] <= files'[k])
    && Parse(st, files'[k]) == Ok(EntriesOf(st, files, k)[item.id := e])
    && item.id !in EntriesOf(st, files, k)
    && e.id == item.id && Whole(e.recordedAt) == e.recordedAt && Datable(e.recordedAt) && Day(e.recordedAt) == k.day
  }

  lemma OneMoreKeeps(st: Stamps, files: map<FileKey, string>, files': map<FileKey, string>, item: Memory, e: Entry)
    requires FilesInv(st, files) && OneMore(st, files, files', item, e)
    ensures Keeps(st, State(files, map[]), State(files', map[]))
    ensures forall k | k in files' :: FileInv(st, k, files'[k])
  {
    hide Parse;
    FilesKept(st, files);
    assert KeyOf(item) in files ==> FileInv(st, KeyOf(item), files[KeyOf(item)]);
    assert FileInv(st, KeyOf(item), files'[KeyOf(item)]);
  }

  lemma OneMoreEntries(st: Stamps, files: map<FileKey, string>, files': map<FileKey, string>, item: Memory, e: Entry,
                       l: FileKey)
    requires OneMore(st, files, files', item, e)
    ensures EntriesOf(st, files', l) == if l == KeyOf(item) then EntriesOf(st, files, l)[item.id := e] else EntriesOf(st, files, l)
  {
    hide Parse, Whole, Datable, Day, KeyOf;
    assert l != KeyOf(item) ==> (l in files' <==> l in files);
  }

  /** One new entry at the end of one file, under an ID that was in none, keeps the files in order. */
  lemma GrownFilesInv(st: Stamps, files: map<FileKey, string>, files': map<FileKey, string>, item: Memory, e: Entry)
    requires FilesInv(st, files) && Holders(st, files, item.userId, item.agentId, item.id) == {}
    requires OneMore(st, files, files', item, e)
    ensures FilesInv(st, files') && Keeps(st, State(files, map[]), State(files', map[]))
  {
    OneMoreKeeps(st, files, files', item, e);
    forall l, m | l in files' && m in files' && l != m && OwnedBy(m, l.userId, l.agentId)
      ensures Apart(EntriesOf(st, files', l), EntriesOf(st, files', m))
    {
      hide Parse, EntriesOf, Keeps, FileInv, Holders;
      OneMoreEntries(st, files, files', item, e, l);
      OneMoreEntries(st, files, files', item, e, m);
      NotElsewhere(st, files, item, l);
      NotElsewhere(st, files, item, m);
      AreApart(st, files, l, m);
    }
  }

  lemma AreApart(st: Stamps, files: map<FileKey, string>, l: FileKey, m: FileKey)
    requires FilesInv(st, files) && l != m && OwnedBy(m, l.userId, l.agentId)
    ensures Apart(EntriesOf(st, files, l), EntriesOf(st, files, m))
  {
    hide Parse, FileInv;
  }

  lemma NotElsewhere(st: Stamps, files: map<FileKey, string>, item: Memory, l: FileKey)
    requires Holders(st, files, item.userId, item.agentId, item.id) == {}
    ensures OwnedBy(l, item.userId, item.agentId) ==> item.id !in EntriesOf(st, files, l)
  {
    hide Parse;
    assert l !in Holders(st, files, item.userId, item.agentId, item.id);
  }

  // ---- Looking up ----

  /** In an accepted log an ID has at most one entry, and the search finds it. */
  lemma SearchFinds(st: Stamps, files: map<FileKey, string>, userId: string, agentId: string, id: string)
    requires FilesInv(st, files)
    ensures FindEntry(st, files, userId, agentId, id).Ok?
    ensures FindEntry(st, files, userId, agentId, id) == Ok(None) <==> Holders(st, files, userId, agentId, id) == {}
    ensures forall k | k in Holders(st, files, userId, agentId, id) ::
              FindEntry(st, files, userId, agentId, id) == Ok(Some(Parse(st, files[k]).value[id]))
  {
    hide Parse;
    var holders := Holders(st, files, userId, agentId, id);
    forall k | k in files && OwnedBy(k, userId, agentId)
      ensures Parse(st, files[k]).Ok?
    {
      assert FileInv(st, k, files[k]);
    }
    if holders != {} {
      var k := OneOf(holders);
      forall l | l in holders
        ensures l == k
      {
        assert l != k ==> Apart(EntriesOf(st, files, l), EntriesOf(st, files, k));
      }
      assert holders == {k};
    }
  }

  lemma FoundIsOwn(st: Stamps, files: map<FileKey, string>, userId: string, agentId: string, id: string)
    requires FilesInv(st, files) && FindEntry(st, files, userId, agentId, id).Ok?
    requires FindEntry(st, files, userId, agentId, id).value.Some?
    ensures var e := FindEntry(st, files, userId, agentId, id).value.value;
            var k := FileKey(userId, agentId, Day(e.recordedAt));
            && e.id == id && Whole(e.recordedAt) == e.recordedAt && Datable(e.recordedAt)
            && k in files && Parse(st, files[k]).Ok? && id in Parse(st, files[k]).value
            && Parse(st, files[k]).value[id] == e
  {
    hide Parse;
    SearchFinds(st, files, userId, agentId, id);
    var k := OneOf(Holders(st, files, userId, agentId, id));
    assert FileInv(st, k, files[k]);
  }

  /** The payload of a memory does not depend on when it was recorded, but on when it is said to be. */
  lemma PayloadIgnoresTime(st: Stamps, x: Memory, y: Memory, t: Time)
    requires x.id == y.id && x.question == y.question && x.answer == y.answer
    ensures Payload(st, x, t) == Payload(st, y, t)
  {
  }

  lemma PayloadAtWhole(st: Stamps, item: Memory)
    requires Lawful(st) && Datable(item.recordedAt)
    ensures Payload(st, item, Whole(item.recordedAt)) == Payload(st, item, item.recordedAt)
  {
    assert Stamped(st, item.recordedAt);
  }

  /** In a state that satisfies the invariant, a save is refused only for a conflict. */
  lemma PlanIsClear(st: Stamps, s: State, item: Memory)
    requires Inv(st, s)
    ensures item.id in s.rows ==>
              PlanFor(st, s, item) ==
              if s.rows[item.id].version == DAILY_MARKDOWN_VERSION && SameContent(s.rows[item.id].memory, item) then Done
              else Reject(Conflict)
    ensures item.id !in s.rows ==>
              var found := FindEntry(st, s.files, item.userId, item.agentId, item.id);
              && found.Ok?
              && PlanFor(st, s, item) ==
                 if found.value.None? then Write
                 else if MatchesMemory(st, found.value.value, item) then Adopt(found.value.value)
                 else Reject(Conflict)
  {
    hide Parse, FindEntry, Payload;
    if item.id in s.rows {
      var row := s.rows[item.id];
      assert RowInv(st, s.files, item.id, row);
      if row.version == DAILY_MARKDOWN_VERSION && SameContent(row.memory, item) {
        var e := Parse(st, s.files[KeyOf(row.memory)]).value[item.id];
        PayloadIgnoresTime(st, row.memory, item, e.recordedAt);
      }
    } else {
      SearchFinds(st, s.files, item.userId, item.agentId, item.id);
    }
  }

  // ---- Every save keeps the invariant ----

  lemma AdoptKeepsInv(st: Stamps, s: State, item: Memory, e: Entry)
    requires Inv(st, s) && item.id !in s.rows && ValidIds(item) && MatchesMemory(st, e, item)
    requires FindEntry(st, s.files, item.userId, item.agentId, item.id) == Ok(Some(e))
    ensures var s' := s.(rows := s.rows[item.id := RowFor(item.(recordedAt := e.recordedAt))]);
            Inv(st, s') && Keeps(st, s, s')
  {
    hide Parse, FindEntry, Payload;
    FoundIsOwn(st, s.files, item.userId, item.agentId, item.id);
    var row := RowFor(item.(recordedAt := e.recordedAt));
    PayloadIgnoresTime(st, item, row.memory, e.recordedAt);
    assert RowInv(st, s.files, item.id, row);
    FilesKept(st, s.files);
  }

  lemma FilesKept(st: Stamps, files: map<FileKey, string>)
    requires FilesInv(st, files)
    ensures Keeps(st, State(files, map[]), State(files, map[]))
  {
    hide Parse;
    forall k | k in files
      ensures Parse(st, files[k]).Ok?
    {
      assert FileInv(st, k, files[k]);
    }
  }

  /** Rows stay backed by files that only grow. */
  lemma RowsStayBacked(st: Stamps, s: State, files: map<FileKey, string>)
    requires Inv(st, s) && FilesInv(st, files) && Keeps(st, State(s.files, map[]), State(files, map[]))
    ensures Inv(st, s.(files := files)) && Keeps(st, s, s.(files := files))
  {
    hide Parse, Payload;
    forall id | id in s.rows
      ensures RowInv(st, files, id, s.rows[id])
    {
      assert RowInv(st, s.files, id, s.rows[id]);
    }
  }

  lemma WriteKeepsInv(st: Stamps, s: State, item: Memory)
    requires Lawful(st) && Ready(item) && Inv(st, s) && item.id !in s.rows
    requires FindEntry(st, s.files, item.userId, item.agentId, item.id) == Ok(None)
    ensures WriteMarkdown(st, s.files, item).Ok?
    ensures var files := WriteMarkdown(st, s.files, item).value;
            && Inv(st, s.(files := files)) && Keeps(st, s, s.(files := files))
            && Inv(st, State(files, s.rows[item.id := RowFor(item)]))
            && Keeps(st, s, State(files, s.rows[item.id := RowFor(item)]))
            && FindEntry(st, files, item.userId, item.agentId, item.id) == Ok(Some(EntryOf(st, item)))
            && MatchesMemory(st, EntryOf(st, item), item)
  {
    hide Parse, FindEntry, Payload, WriteMarkdown, Lawful, ValidIds, Normalize;
    SearchFinds(st, s.files, item.userId, item.agentId, item.id);
    WriteKeepsFiles(st, s.files, item);
    var files := WriteMarkdown(st, s.files, item).value;
    RowsStayBacked(st, s, files);
    var (k, row, e) := (KeyOf(item), RowFor(item), EntryOf(st, item));
    ReadyHasValidIds(item);
    WholeKeepsDay(item.recordedAt);
    PayloadAtWhole(st, item);
    PayloadIgnoresTime(st, item, row.memory, Whole(item.recordedAt));
    assert RowInv(st, files, item.id, row);
    assert k in Holders(st, files, item.userId, item.agentId, item.id);
    SearchFinds(st, files, item.userId, item.agentId, item.id);
  }

  lemma PerformAdopt(st: Stamps, s: State, item: Memory, e: Entry, fault: Fault)
    requires Inv(st, s) && item.id !in s.rows && ValidIds(item) && MatchesMemory(st, e, item)
    requires FindEntry(st, s.files, item.userId, item.agentId, item.id) == Ok(Some(e))
    ensures Inv(st, Perform(st, s, item, Adopt(e), fault).0) && Keeps(st, s, Perform(st, s, item, Adopt(e), fault).0)
  {
    hide Parse, FindEntry, MatchesMemory, WriteMarkdown, Keeps, Inv, RowFor;
    Unchanged(st, s);
    AdoptKeepsInv(st, s, item, e);
  }

  lemma PerformWrite(st: Stamps, s: State, item: Memory, fault: Fault)
    requires Lawful(st) && Ready(item) && Inv(st, s) && item.id !in s.rows
    requires FindEntry(st, s.files, item.userId, item.agentId, item.id) == Ok(None)
    ensures Inv(st, Perform(st, s, item, Write, fault).0) && Keeps(st, s, Perform(st, s, item, Write, fault).0)
  {
    hide Parse, FindEntry, Lawful, MatchesMemory, WriteMarkdown, Ready, Keeps, Inv, RowFor, EntryOf, Payload;
    Unchanged(st, s);
    WriteKeepsInv(st, s, item);
  }

  lemma PerformKeepsInv(st: Stamps, s: State, item: Memory, fault: Fault)
    requires Lawful(st) && Ready(item) && Inv(st, s)
    ensures Inv(st, Perform(st, s, item, PlanFor(st, s, item), fault).0)
    ensures Keeps(st, s, Perform(st, s, item, PlanFor(st, s, item), fault).0)
  {
    hide Parse, FindEntry, Lawful, MatchesMemory, WriteMarkdown, Ready, Keeps, Inv, RowFor, PlanFor;
    Unchanged(st, s);
    ReadyHasValidIds(item);
    PlanIsClear(st, s, item);
    var plan := PlanFor(st, s, item);
    if plan.Adopt? {
      PerformAdopt(st, s, item, plan.entry, fault);
    } else if plan.Write? {
      PerformWrite(st, s, item, fault);
    }
  }

  /** One save, whatever fails, keeps the invariant and everything already written. */
  lemma SaveKeepsInv(st: Stamps, s: State, raw: Memory, now: Time, fault: Fault)
    requires Lawful(st) && Datable(now) && Inv(st, s)
    ensures Inv(st, Save(st, s, raw, now, fault).0) && Keeps(st, s, Save(st, s, raw, now, fault).0)
  {
    hide Lawful, Normalize, Ready, Keeps, ValidIds, Inv, Perform, PlanFor;
    var item := Normalize(raw).(recordedAt := now);
    Unchanged(st, s);
    if ValidIds(item) {
      NormalizedIsReady(raw, now);
      PerformKeepsInv(st, s, item, fault);
    }
  }

  lemma Unchanged(st: Stamps, s: State)
    requires Inv(st, s)
    ensures Keeps(st, s, s)
  {
    FilesKept(st, s.files);
  }

  // ---- Runs ----

  datatype Call = Call(raw: Memory, now: Time, fault: Fault)

  /** The stores after a list of saves. */
  ghost function SaveAll(st: Stamps, s: State, calls: seq<Call>): State {
    if calls == [] then s
    else
      var last := calls[|calls| - 1];
      Save(st, SaveAll(st, s, calls[..|calls| - 1]), last.raw, last.now, last.fault).0
  }

  ghost predicate Timely(calls: seq<Call>) {
    forall i | 0 <= i < |calls| :: Datable(calls[i].now)
  }

  lemma {:induction false} SaveAllKeepsInv(st: Stamps, s: State, calls: seq<Call>)
    requires Lawful(st) && Inv(st, s) && Timely(calls)
    ensures Inv(st, SaveAll(st, s, calls)) && Keeps(st, s, SaveAll(st, s, calls))
  {
    hide Save, Inv, Keeps, Lawful;
    if calls == [] {
      Unchanged(st, s);
    } else {
      var (front, last) := (calls[..|calls| - 1], calls[|calls| - 1]);
      SaveAllKeepsInv(st, s, front);
      var mid := SaveAll(st, s, front);
      SaveKeepsInv(st, mid, last.raw, last.now, last.fault);
      KeepsTransitive(st, s, mid, SaveAll(st, s, calls));
    }
  }

  lemma InitialInv(st: Stamps, s: State)
    requires Initial(s)
    ensures Inv(st, s)
  {
  }

  /** Safety: after any saves, with any failures, from a database that knows only older rows - every version-1 row has its
      entry, every ID at most one entry among the files of its user and agent; and whatever was there after some of the
      saves is there, unchanged, after all of them. */
  lemma ProtocolIsSafe(st: Stamps, s: State, calls: seq<Call>, more: seq<Call>)
    requires Lawful(st) && Initial(s) && Timely(calls) && Timely(more)
    ensures var (t, u) := (SaveAll(st, s, calls), SaveAll(st, SaveAll(st, s, calls), more));
            && (forall id | id in t.rows :: RowInv(st, t.files, id, t.rows[id]))
            && (forall userId, agentId, id :: |Holders(st, t.files, userId, agentId, id)| <= 1)
            && Keeps(st, t, u)
  {
    hide SaveAll, Initial, RowInv, Keeps, Lawful, FindEntry, FilesInv, Holders, Timely;
    InitialInv(st, s);
    SaveAllKeepsInv(st, s, calls);
    var t := SaveAll(st, s, calls);
    SaveAllKeepsInv(st, t, more);
    forall userId, agentId, id
      ensures |Holders(st, t.files, userId, agentId, id)| <= 1
    {
      OneHolder(st, t.files, userId, agentId, id);
    }
  }

  lemma OneHolder(st: Stamps, files: map<FileKey, string>, userId: string, agentId: string, id: string)
    requires FilesInv(st, files)
    ensures |Holders(st, files, userId, agentId, id)| <= 1
  {
    hide Parse, Holders, FilesInv;
    SearchFinds(st, files, userId, agentId, id);
  }

  // ---- Retrying ----

  /** `b` is `a` after things that do not concern the item: its row and its entry are as they were. */
  ghost predicate Undisturbed(st: Stamps, a: State, b: State, item: Memory) {
    && Inv(st, b)
    && (item.id in a.rows <==> item.id in b.rows)
    && (item.id in a.rows ==> b.rows[item.id] == a.rows[item.id])
    && FindEntry(st, b.files, item.userId, item.agentId, item.id)
       == FindEntry(st, a.files, item.userId, item.agentId, item.id)
  }

  lemma SameHoldersSameEntry(st: Stamps, files: map<FileKey, string>, files': map<FileKey, string>, userId: string,
                             agentId: string, id: string)
    requires FilesInv(st, files) && FilesInv(st, files')
    requires Holders(st, files', userId, agentId, id) == Holders(st, files, userId, agentId, id)
    requires forall k | k in Holders(st, files, userId, agentId, id) ::
               EntriesOf(st, files', k)[id] == EntriesOf(st, files, k)[id]
    ensures FindEntry(st, files', userId, agentId, id) == FindEntry(st, files, userId, agentId, id)
  {
    hide Parse, FindEntry, FilesInv;
    SearchFinds(st, files, userId, agentId, id);
    SearchFinds(st, files', userId, agentId, id);
    var holders := Holders(st, files, userId, agentId, id);
    if holders != {} {
      var k := OneOf(holders);
      assert k in Holders(st, files', userId, agentId, id);
    }
  }

  /** Writing one memory does not move, add or remove entries of another ID. */
  lemma OtherWriteKeepsSearch(st: Stamps, files: map<FileKey, string>, other: Memory, item: Memory)
    requires Lawful(st) && Ready(other) && FilesInv(st, files) && other.id != item.id
    requires Holders(st, files, other.userId, other.agentId, other.id) == {}
    ensures WriteMarkdown(st, files, other).Ok?
    ensures FindEntry(st, WriteMarkdown(st, files, other).value, item.userId, item.agentId, item.id)
            == FindEntry(st, files, item.userId, item.agentId, item.id)
  {
    hide Parse, WriteMarkdown, FindEntry, FilesInv, Lawful, Ready, EntryOf;
    WriteKeepsFiles(st, files, other);
    NotElsewhere(st, files, other, KeyOf(other));
    WriteAddsEntry(st, files, other);
    var files' := WriteMarkdown(st, files, other).value;
    AcceptedFiles(st, files);
    forall k
      ensures k in Holders(st, files', item.userId, item.agentId, item.id)
              <==> k in Holders(st, files, item.userId, item.agentId, item.id)
    {
      if k == KeyOf(other) {
        assert item.id in EntriesOf(st, files', k) <==> item.id in EntriesOf(st, files, k);
      }
    }
    SameHoldersSameEntry(st, files, files', item.userId, item.agentId, item.id);
  }

  lemma AcceptedFiles(st: Stamps, files: map<FileKey, string>)
    requires FilesInv(st, files)
    ensures forall k | k in files :: Parse(st, files[k]).Ok?
  {
    hide Parse;
    forall k | k in files
      ensures Parse(st, files[k]).Ok?
    {
      assert FileInv(st, k, files[k]);
    }
  }

  /** A save of another ID does not disturb the item, whether it succeeds or fails. */
  lemma OtherSaveUndisturbed(st: Stamps, s: State, item: Memory, raw: Memory, now: Time, fault: Fault)
    requires Lawful(st) && Datable(now) && Inv(st, s) && Normalize(raw).id != item.id
    ensures Undisturbed(st, s, Save(st, s, raw, now, fault).0, item)
  {
    hide Parse, FindEntry, Lawful, Normalize, MatchesMemory, WriteMarkdown, Ready, ValidIds, Inv, PlanFor, EntryOf;
    var other := Normalize(raw).(recordedAt := now);
    SaveKeepsInv(st, s, raw, now, fault);
    if ValidIds(other) {
      NormalizedIsReady(raw, now);
      PlanIsClear(st, s, other);
      if PlanFor(st, s, other).Write? {
        OtherPlanWrites(st, s, other, item);
      }
    }
  }

  lemma OtherPlanWrites(st: Stamps, s: State, other: Memory, item: Memory)
    requires Lawful(st) && Ready(other) && Inv(st, s) && other.id != item.id
    requires FindEntry(st, s.files, other.userId, other.agentId, other.id) == Ok(None)
    ensures WriteMarkdown(st, s.files, other).Ok?
    ensures FindEntry(st, WriteMarkdown(st, s.files, other).value, item.userId, item.agentId, item.id)
            == FindEntry(st, s.files, item.userId, item.agentId, item.id)
  {
    hide Parse, FindEntry, WriteMarkdown, FilesInv, Lawful, Ready;
    SearchFinds(st, s.files, other.userId, other.agentId, other.id);
    OtherWriteKeepsSearch(st, s.files, other, item);
  }

  lemma {:induction false} OtherSavesUndisturbed(st: Stamps, s: State, item: Memory, calls: seq<Call>)
    requires Lawful(st) && Timely(calls) && Inv(st, s)
    requires forall i | 0 <= i < |calls| :: Normalize(calls[i].raw).id != item.id
    ensures Undisturbed(st, s, SaveAll(st, s, calls), item)
  {
    hide Save, Inv, Lawful, FindEntry, Normalize;
    if calls != [] {
      var (front, last) := (calls[..|calls| - 1], calls[|calls| - 1]);
      OtherSavesUndisturbed(st, s, item, front);
      OtherSaveUndisturbed(st, SaveAll(st, s, front), item, last.raw, last.now, last.fault);
    }
  }

  /** The item is either not stored at all, or stored with the content it has. */
  ghost predicate Compatible(st: Stamps, s: State, item: Memory) {
    if item.id in s.rows then s.rows[item.id].version == DAILY_MARKDOWN_VERSION && SameContent(s.rows[item.id].memory, item)
    else
      var found := FindEntry(st, s.files, item.userId, item.agentId, item.id);
      found.Ok? && (found.value.Some? ==> MatchesMemory(st, found.value.value, item))
  }

  /** Whether an item is compatible does not depend on when it is saved. */
  lemma CompatibleAtAnyTime(st: Stamps, s: State, item: Memory, t: Time)
    ensures Compatible(st, s, item.(recordedAt := t)) <==> Compatible(st, s, item)
  {
    hide FindEntry, Payload;
    var found := FindEntry(st, s.files, item.userId, item.agentId, item.id);
    if found.Ok? && found.value.Some? {
      PayloadIgnoresTime(st, item, item.(recordedAt := t), found.value.value.recordedAt);
    }
  }

  lemma NormalizeTwice(raw: Memory, t: Time, u: Time)
    ensures Normalize(raw).(recordedAt := t).(recordedAt := u) == Normalize(raw).(recordedAt := u)
  {
    hide TrimSpace;
  }

  /** A save without failures succeeds exactly when the item is valid and compatible. */
  lemma SucceedsIff(st: Stamps, s: State, raw: Memory, now: Time)
    requires Lawful(st) && Datable(now) && Inv(st, s)
    ensures var item := Normalize(raw).(recordedAt := now);
            Save(st, s, raw, now, NoFault).1.error == None <==> ValidIds(item) && Compatible(st, s, item)
  {
    hide Parse, FindEntry, Lawful, Normalize, MatchesMemory, WriteMarkdown, Ready, ValidIds, Inv, PlanFor, EntryOf;
    var item := Normalize(raw).(recordedAt := now);
    if ValidIds(item) {
      NormalizedIsReady(raw, now);
      PlanIsClear(st, s, item);
      if PlanFor(st, s, item).Write? {
        WriteKeepsInv(st, s, item);
      }
    }
  }

  /** After a save that succeeds, the row is there; if an entry was there already, it stays the only one and its time is the
      row's. */
  lemma SuccessStores(st: Stamps, s: State, raw: Memory, now: Time)
    requires Lawful(st) && Datable(now) && Inv(st, s) && Save(st, s, raw, now, NoFault).1.error == None
    ensures var (item, t) := (Normalize(raw).(recordedAt := now), Save(st, s, raw, now, NoFault).0);
            && item.id in t.rows && Compatible(st, t, item)
            && Save(st, s, raw, now, NoFault).1 == SaveResult(true, None)
            && (item.id in s.rows ==> t == s)
            && (item.id !in s.rows ==>
                  var found := FindEntry(st, s.files, item.userId, item.agentId, item.id);
                  found.Ok? && (found.value.Some? ==>
                    t.files == s.files && t.rows[item.id].memory.recordedAt == found.value.value.recordedAt))
  {
    hide Parse, Lawful, Normalize, MatchesMemory, WriteMarkdown, Ready, ValidIds, PlanFor, EntryOf, FindEntry, FilesInv;
    var item := Normalize(raw).(recordedAt := now);
    SucceedsIff(st, s, raw, now);
    NormalizedIsReady(raw, now);
    PlanIsClear(st, s, item);
    if PlanFor(st, s, item).Write? {
      WriteKeepsInv(st, s, item);
    } else if PlanFor(st, s, item).Adopt? {
      FoundIsOwn(st, s.files, item.userId, item.agentId, item.id);
    }
  }

  /** What an interrupted save leaves behind: everything as it was, or the entry without its row, or - had nothing failed -
      both. In each case the item is still compatible, and an entry it wrote carries the time of that attempt. */
  lemma FailureLeavesCompatible(st: Stamps, s: State, raw: Memory, now: Time, fault: Fault)
    requires Lawful(st) && Datable(now) && Inv(st, s) && Save(st, s, raw, now, NoFault).1.error == None
    ensures var (item, t) := (Normalize(raw).(recordedAt := now), Save(st, s, raw, now, fault).0);
            && Compatible(st, t, item)
            && (PlanFor(st, s, item).Write? && fault == DatabaseFails ==>
                  item.id !in t.rows
                  && FindEntry(st, t.files, item.userId, item.agentId, item.id) == Ok(Some(EntryOf(st, item))))
  {
    hide Parse, FindEntry, Lawful, Normalize, MatchesMemory, WriteMarkdown, Ready, ValidIds, Inv, PlanFor, EntryOf;
    var item := Normalize(raw).(recordedAt := now);
    SucceedsIff(st, s, raw, now);
    if fault == NoFault {
      SuccessStores(st, s, raw, now);
    } else {
      NormalizedIsReady(raw, now);
      PlanIsClear(st, s, item);
      if PlanFor(st, s, item).Write? {
        WriteKeepsInv(st, s, item);
      }
    }
  }

  /** Retry convergence. A save that would succeed fails somewhere; others save other IDs meanwhile, failing or not; then it
      is repeated without failure. The repetition succeeds. If the first attempt had written its entry, no second one is
      added and the row carries the time of that attempt. Any further repetition changes nothing. */
  lemma RetryConverges(st: Stamps, s: State, raw: Memory, t0: Time, fault: Fault, others: seq<Call>, t1: Time, t2: Time)
    requires Lawful(st) && Datable(t0) && Datable(t1) && Datable(t2) && Timely(others) && Inv(st, s)
    requires Save(st, s, raw, t0, NoFault).1.error == None
    requires forall i | 0 <= i < |others| :: Normalize(others[i].raw).id != Normalize(raw).id
    ensures var s1 := SaveAll(st, Save(st, s, raw, t0, fault).0, others);
            var (s2, r2) := Save(st, s1, raw, t1, NoFault);
            var item := Normalize(raw).(recordedAt := t0);
            && r2 == SaveResult(true, None)
            && item.id in s2.rows
            && (PlanFor(st, s, item).Write? && fault == DatabaseFails ==>
                  s2.files == s1.files && s2.rows[item.id].memory.recordedAt == Whole(t0))
            && Save(st, s2, raw, t2, NoFault) == (s2, SaveResult(true, None))
  {
    hide Save, FindEntry, Lawful, Normalize, Inv, PlanFor, Compatible, ValidIds, Payload;
    var item := Normalize(raw).(recordedAt := t0);
    var failed := Save(st, s, raw, t0, fault).0;
    FailureLeavesCompatible(st, s, raw, t0, fault);
    SaveKeepsInv(st, s, raw, t0, fault);
    OtherSavesUndisturbed(st, failed, item, others);
    var s1 := SaveAll(st, failed, others);
    UndisturbedCompatible(st, failed, s1, item);
    RepeatSucceeds(st, s, s1, raw, t0, t1);
    SuccessStores(st, s1, raw, t1);
    SaveKeepsInv(st, s1, raw, t1, NoFault);
    var s2 := Save(st, s1, raw, t1, NoFault).0;
    CompatibleAtAnyTime(st, s2, Normalize(raw).(recordedAt := t1), t0);
    NormalizeTwice(raw, t1, t0);
    RepeatSucceeds(st, s, s2, raw, t0, t2);
    SuccessStores(st, s2, raw, t2);
  }

  lemma UndisturbedCompatible(st: Stamps, a: State, b: State, item: Memory)
    requires Undisturbed(st, a, b, item) && Compatible(st, a, item)
    ensures Compatible(st, b, item)
  {
    hide FindEntry, Inv, MatchesMemory;
  }

  /** What would have succeeded once succeeds in any later state the item is compatible with. */
  lemma RepeatSucceeds(st: Stamps, s: State, later: State, raw: Memory, t0: Time, t1: Time)
    requires Lawful(st) && Datable(t0) && Datable(t1) && Inv(st, s) && Inv(st, later)
    requires Save(st, s, raw, t0, NoFault).1.error == None
    requires Compatible(st, later, Normalize(raw).(recordedAt := t0))
    ensures Save(st, later, raw, t1, NoFault).1.error == None
  {
    hide Save, Lawful, Normalize, Inv, Compatible;
    SucceedsIff(st, s, raw, t0);
    CompatibleAtAnyTime(st, later, Normalize(raw).(recordedAt := t0), t1);
    NormalizeTwice(raw, t0, t1);
    SucceedsIff(st, later, raw, t1);
  }

  /** A save that succeeds, whatever state it finds, leaves a version-1 row with the content it was asked to save. */
  lemma SavedRowHasContent(st: Stamps, s: State, raw: Memory, now: Time, fault: Fault)
    requires Save(st, s, raw, now, fault).1.error == None
    ensures var (item, (t, result)) := (Normalize(raw).(recordedAt := now), Save(st, s, raw, now, fault));
            && result.markdownSynced && item.id in t.rows
            && t.rows[item.id].version == DAILY_MARKDOWN_VERSION && SameContent(t.rows[item.id].memory, item)
  {
    hide Parse, FindEntry, Normalize, ValidIds, MatchesMemory, WriteMarkdown;
  }

  // ---- Torn writes ----

  /** The full text a write is about to put at the end of the item's daily file. */
  function Pending(st: Stamps, files: map<FileKey, string>, item: Memory): string {
    if KeyOf(item) in files then SEPARATOR + EntryText(st, item) else Header(item) + EntryText(st, item)
  }

  /** The files after a crash in the middle of a write, `k` bytes into it. */
  function Torn(st: Stamps, files: map<FileKey, string>, item: Memory, k: nat): map<FileKey, string>
    requires k <= |Pending(st, files, item)|
  {
    var key := KeyOf(item);
    files[key := (if key in files then files[key] else "") + Pending(st, files, item)[..k]]
  }

  /** A torn write is all, nothing, or a file the parser refuses. */
  lemma TornFile(st: Stamps, files: map<FileKey, string>, item: Memory, k: nat)
    requires Lawful(st) && Ready(item) && FilesInv(st, files) && item.id !in EntriesOf(st, files, KeyOf(item))
    requires k < |Pending(st, files, item)|
    ensures var (key, torn) := (KeyOf(item), Torn(st, files, item, k));
            || Parse(st, torn[key]).Err?
            || (key in files && Parse(st, torn[key]) == Parse(st, files[key]))
            || Parse(st, torn[key]) == Ok(EntriesOf(st, files, key)[item.id := EntryOf(st, item)])
  {
    hide Parse, EntryText, Header, EntryOf, Loggable, Ready, ValidPathId, ValidMarkerId, Lawful;
    ReadyIsLoggable(item);
    if KeyOf(item) in files {
      assert FileInv(st, KeyOf(item), files[KeyOf(item)]);
      TornAppend(st, files[KeyOf(item)], item, k);
    } else {
      TornCreate(st, item, k);
      assert "" + Pending(st, files, item)[..k] == (Header(item) + EntryText(st, item))[..k];
    }
  }

  /** A longer file with the same entries. */
  lemma SameEntriesKeepFiles(st: Stamps, files: map<FileKey, string>, k: FileKey, content: string)
    requires FilesInv(st, files) && k in files && files[k] <= content && Parse(st, content) == Parse(st, files[k])
    ensures FilesInv(st, files[k := content])
    ensures Keeps(st, State(files, map[]), State(files[k := content], map[]))
  {
    hide Parse;
    var files' := files[k := content];
    FilesKept(st, files);
    assert FileInv(st, k, files[k]);
    forall l, m | l in files' && m in files' && l != m && OwnedBy(m, l.userId, l.agentId)
      ensures Apart(EntriesOf(st, files', l), EntriesOf(st, files', m))
    {
      assert EntriesOf(st, files', l) == EntriesOf(st, files, l) && EntriesOf(st, files', m) == EntriesOf(st, files, m);
    }
  }

  /** A crash in the middle of a write: unless the file is refused from then on, the invariant holds and nothing written
      before has changed, so the log goes on as after any other save. */
  lemma TornWriteIsSafe(st: Stamps, s: State, item: Memory, k: nat)
    requires Lawful(st) && Ready(item) && Inv(st, s) && k < |Pending(st, s.files, item)|
    requires FindEntry(st, s.files, item.userId, item.agentId, item.id) == Ok(None)
    ensures var files := Torn(st, s.files, item, k);
            Parse(st, files[KeyOf(item)]).Ok? ==> Inv(st, s.(files := files)) && Keeps(st, s, s.(files := files))
  {
    hide Parse, FindEntry, Pending, EntryOf, Ready, Lawful;
    SearchFinds(st, s.files, item.userId, item.agentId, item.id);
    var (key, files) := (KeyOf(item), Torn(st, s.files, item, k));
    NotElsewhere(st, s.files, item, key);
    TornFile(st, s.files, item, k);
    if Parse(st, files[key]).Ok? {
      EntryOfDay(st, item);
      if key in s.files && Parse(st, files[key]) == Parse(st, s.files[key]) {
        SameEntriesKeepFiles(st, s.files, key, files[key]);
      } else {
        GrownFilesInv(st, s.files, files, item, EntryOf(st, item));
      }
      RowsStayBacked(st, s, files);
    }
  }

  /** When the torn file is refused, the log of its user and agent is frozen rather than damaged: no save for them changes
      anything any more, and new memories are refused. */
  lemma RefusedFileFreezes(st: Stamps, s: State, k: FileKey, raw: Memory, now: Time, fault: Fault)
    requires k in s.files && Parse(st, s.files[k]).Err?
    requires Normalize(raw).userId == k.userId && Normalize(raw).agentId == k.agentId
    ensures Save(st, s, raw, now, fault).0 == s
    ensures Normalize(raw).id !in s.rows ==> Save(st, s, raw, now, fault).1.error.Some?
  {
    hide Parse, Normalize, ValidIds, MatchesMemory;
    assert OwnedBy(k, Normalize(raw).userId, Normalize(raw).agentId);
    assert !AllAccepted(st, s.files, Normalize(raw).userId, Normalize(raw).agentId);
  }

  // ---- Search ----

  /** What a search result is given as its content: the entry of its row, trimmed. */
  lemma SearchResolves(st: Stamps, s: State, id: string)
    requires Inv(st, s) && id in s.rows && s.rows[id].version == DAILY_MARKDOWN_VERSION
    ensures var row := s.rows[id].memory;
            var entries := Entries(st, s.files, KeyOf(row));
            && ValidIds(row) && entries.Ok? && id in entries.value && row.recordedAt != ZERO_TIME
            && entries.value[id].payload == Payload(st, row, row.recordedAt)
  {
    hide Parse, Payload;
    assert RowInv(st, s.files, id, s.rows[id]);
  }
}
