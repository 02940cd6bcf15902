/** Runs of saves in which the process may also crash inside a write. A torn file may be refused from then on; the log of its
    user and agent is then frozen, and that of everyone else goes on. So the invariant is stated for each owner. */
module SaveRuns {
  import opened Clock
  import opened Text
  import opened Markdown
  import opened MarkdownLaws
  import opened SaveProtocol
  import opened SaveLaws

  /** A save, or one that crashes `written` bytes into its write of the markdown file. */
  datatype Step = Saved(raw: Memory, now: Time, fault: Fault) | Crashed(raw: Memory, now: Time, written: nat)

  /** The item a step works on. */
  function ItemOf(step: Step): Memory {
    Normalize(step.raw).(recordedAt := step.now)
  }

  ghost function Crash(st: Stamps, s: State, item: Memory, written: nat): State {
    if ValidIds(item) && PlanFor(st, s, item).Write? && written < |Pending(st, s.files, item)| then
      s.(files := Torn(st, s.files, item, written))
    else s
  }

  ghost function After(st: Stamps, s: State, step: Step): State {
    match step
    case Saved(raw, now, fault) => Save(st, s, raw, now, fault).0
    case Crashed(_, _, written) => Crash(st, s, ItemOf(step), written)
  }

  ghost function AfterAll(st: Stamps, s: State, steps: seq<Step>): State {
    if steps == [] then s else After(st, AfterAll(st, s, steps[..|steps| - 1]), steps[|steps| - 1])
  }

  ghost predicate InTime(steps: seq<Step>) {
    forall i | 0 <= i < |steps| :: Datable(steps[i].now)
  }

  // ---- One owner's part of the stores ----

  predicate RowOf(row: Row, userId: string, agentId: string) {
    row.memory.userId == userId && row.memory.agentId == agentId
  }

  function OwnFiles(files: map<FileKey, string>, userId: string, agentId: string): map<FileKey, string> {
    map k | k in files && OwnedBy(k, userId, agentId) :: files[k]
  }

  function OwnRows(rows: map<string, Row>, userId: string, agentId: string): map<string, Row> {
    map id | id in rows && RowOf(rows[id], userId, agentId) :: rows[id]
  }

  function Own(s: State, userId: string, agentId: string): State {
    State(OwnFiles(s.files, userId, agentId), OwnRows(s.rows, userId, agentId))
  }

  /** The invariant: whoever's log is readable has it in order. */
  ghost predicate Safe(st: Stamps, s: State) {
    forall userId, agentId {:trigger Own(s, userId, agentId)} | AllAccepted(st, s.files, userId, agentId) ::
      Inv(st, Own(s, userId, agentId))
  }

  /** The ID is taken by somebody else. */
  predicate Foreign(s: State, item: Memory) {
    item.id in s.rows && !RowOf(s.rows[item.id], item.userId, item.agentId)
  }

  lemma ForeignIsRejected(st: Stamps, s: State, item: Memory)
    requires Foreign(s, item)
    ensures PlanFor(st, s, item) == Reject(Conflict)
  {
    hide Parse;
  }

  lemma OwnFind(st: Stamps, files: map<FileKey, string>, userId: string, agentId: string, id: string)
    ensures FindEntry(st, OwnFiles(files, userId, agentId), userId, agentId, id) == FindEntry(st, files, userId, agentId, id)
    ensures AllAccepted(st, OwnFiles(files, userId, agentId), userId, agentId) == AllAccepted(st, files, userId, agentId)
  {
    hide Parse;
    var own := OwnFiles(files, userId, agentId);
    assert Holders(st, own, userId, agentId, id) == Holders(st, files, userId, agentId, id);
    assert forall k | k in files && OwnedBy(k, userId, agentId) :: k in own && own[k] == files[k];
  }

  /** A save looks only at what belongs to its owner. */
  lemma OwnPlan(st: Stamps, s: State, item: Memory)
    requires !Foreign(s, item)
    ensures PlanFor(st, Own(s, item.userId, item.agentId), item) == PlanFor(st, s, item)
  {
    OwnFind(st, s.files, item.userId, item.agentId, item.id);
    hide Parse, FindEntry, MatchesMemory;
  }

  lemma OwnWrite(st: Stamps, files: map<FileKey, string>, item: Memory, content: string)
    ensures var (u, a, k) := (item.userId, item.agentId, KeyOf(item));
            OwnFiles(files[k := content], u, a) == OwnFiles(files, u, a)[k := content]
  {
  }

  lemma OthersWrite(files: map<FileKey, string>, item: Memory, content: string, userId: string, agentId: string)
    requires !(item.userId == userId && item.agentId == agentId)
    ensures OwnFiles(files[KeyOf(item) := content], userId, agentId) == OwnFiles(files, userId, agentId)
  {
  }

  /** A write ends in one file, the owner's, and only adds to it. */
  lemma WriteIsLocal(st: Stamps, files: map<FileKey, string>, item: Memory)
    ensures var (own, r) := (OwnFiles(files, item.userId, item.agentId), WriteMarkdown(st, files, item));
            match WriteMarkdown(st, own, item)
            case Err(e) => r == Err(e)
            case Ok(written) =>
              r.Ok? && var k := KeyOf(item);
              && k in r.value && r.value == files[k := r.value[k]] && written == own[k := r.value[k]]
              && (k in files ==> files[k] <= r.value[k])
  {
    hide Parse, RenderAppend, RenderFile;
  }

  lemma OwnInsert(rows: map<string, Row>, id: string, row: Row, userId: string, agentId: string)
    requires id !in rows
    ensures OwnRows(rows[id := row], userId, agentId) ==
            if RowOf(row, userId, agentId) then OwnRows(rows, userId, agentId)[id := row] else OwnRows(rows, userId, agentId)
  {
  }

  // ---- One save ----

  /** The files after a save are those before, with at most one of the owner's files longer; the rows are those before, with
      at most one of the owner's rows added. */
  ghost predicate Local(s: State, t: State, item: Memory) {
    && (t.files == s.files || var k := KeyOf(item);
          k in t.files && t.files == s.files[k := t.files[k]] && (k in s.files ==> s.files[k] <= t.files[k]))
    && (t.rows == s.rows || (item.id !in s.rows && item.id in t.rows && RowOf(t.rows[item.id], item.userId, item.agentId)
                             && t.rows == s.rows[item.id := t.rows[item.id]]))
  }

  lemma PlanWithoutRow(st: Stamps, s: State, item: Memory)
    ensures PlanFor(st, s, item).Write? || PlanFor(st, s, item).Adopt? ==> item.id !in s.rows
    ensures PlanFor(st, s, item).Write? ==> FindEntry(st, s.files, item.userId, item.agentId, item.id) == Ok(None)
  {
    hide Parse, FindEntry, MatchesMemory;
  }

  lemma SaveIsLocal(st: Stamps, s: State, raw: Memory, now: Time, fault: Fault)
    ensures Local(s, Save(st, s, raw, now, fault).0, Normalize(raw).(recordedAt := now))
  {
    var item := Normalize(raw).(recordedAt := now);
    PlanWithoutRow(st, s, item);
    WriteIsLocal(st, s.files, item);
    hide Normalize, ValidIds, PlanFor, WriteMarkdown, OwnFiles;
  }

  /** The save of the owner's part is the owner's part of the save. */
  lemma OwnSave(st: Stamps, s: State, raw: Memory, now: Time, fault: Fault)
    requires !Foreign(s, Normalize(raw).(recordedAt := now))
    ensures var item := Normalize(raw).(recordedAt := now);
            var (u, a) := (item.userId, item.agentId);
            && Save(st, Own(s, u, a), raw, now, fault).0 == Own(Save(st, s, raw, now, fault).0, u, a)
            && Save(st, Own(s, u, a), raw, now, fault).1 == Save(st, s, raw, now, fault).1
  {
    var item := Normalize(raw).(recordedAt := now);
    hide Normalize, ValidIds, PlanFor, Perform, Own;
    OwnPlan(st, s, item);
    OwnPerform(st, s, item, PlanFor(st, s, item), fault);
  }

  lemma OwnPerform(st: Stamps, s: State, item: Memory, plan: Plan, fault: Fault)
    requires plan == PlanFor(st, s, item)
    ensures var own := Own(s, item.userId, item.agentId);
            && Perform(st, own, item, plan, fault).0 == Own(Perform(st, s, item, plan, fault).0, item.userId, item.agentId)
            && Perform(st, own, item, plan, fault).1 == Perform(st, s, item, plan, fault).1
  {
    PlanWithoutRow(st, s, item);
    hide PlanFor, WriteMarkdown, OwnFiles, OwnRows;
    match plan
    case Reject(_) =>
    case Done =>
    case Adopt(e) =>
      OwnInsert(s.rows, item.id, RowFor(item.(recordedAt := e.recordedAt)), item.userId, item.agentId);
    case Write =>
      WriteIsLocal(st, s.files, item);
      OwnInsert(s.rows, item.id, RowFor(item), item.userId, item.agentId);
      var r := WriteMarkdown(st, s.files, item);
      if r.Ok? {
        OwnWrite(st, s.files, item, r.value[KeyOf(item)]);
      }
  }

  /** What belongs to somebody else stays as it is. */
  lemma LocalToOwner(s: State, t: State, item: Memory, userId: string, agentId: string)
    requires Local(s, t, item) && !(item.userId == userId && item.agentId == agentId)
    ensures Own(t, userId, agentId) == Own(s, userId, agentId)
  {
    if t.files != s.files {
      OthersWrite(s.files, item, t.files[KeyOf(item)], userId, agentId);
    }
    if t.rows != s.rows {
      OwnInsert(s.rows, item.id, t.rows[item.id], userId, agentId);
    }
  }

  // ---- One crash ----

  lemma CrashIsLocal(st: Stamps, s: State, item: Memory, written: nat)
    ensures Local(s, Crash(st, s, item, written), item)
  {
    hide ValidIds, PlanFor, Pending;
  }

  lemma OwnCrash(st: Stamps, s: State, item: Memory, written: nat)
    requires !Foreign(s, item)
    ensures Crash(st, Own(s, item.userId, item.agentId), item, written)
            == Own(Crash(st, s, item, written), item.userId, item.agentId)
  {
    OwnPlan(st, s, item);
    OwnPending(st, s.files, item);
    hide PlanFor, ValidIds, Pending, OwnFiles, OwnRows;
    if ValidIds(item) && PlanFor(st, s, item).Write? && written < |Pending(st, s.files, item)| {
      OwnWrite(st, s.files, item, Torn(st, s.files, item, written)[KeyOf(item)]);
    }
  }

  lemma OwnPending(st: Stamps, files: map<FileKey, string>, item: Memory)
    ensures var (own, k) := (OwnFiles(files, item.userId, item.agentId), KeyOf(item));
            Pending(st, own, item) == Pending(st, files, item)
            && (k in own <==> k in files) && (k in files ==> own[k] == files[k])
  {
    hide EntryText, Header;
  }

  /** A crash keeps the invariant of an owner whose files are still accepted. */
  lemma CrashKeepsInv(st: Stamps, s: State, item: Memory, written: nat)
    requires Lawful(st) && Inv(st, s) && Normalize(item) == item && Datable(item.recordedAt)
    requires AllAccepted(st, Crash(st, s, item, written).files, item.userId, item.agentId)
    ensures Inv(st, Crash(st, s, item, written)) && Keeps(st, s, Crash(st, s, item, written))
  {
    Unchanged(st, s);
    PlanWithoutRow(st, s, item);
    hide Parse, FindEntry, PlanFor, Pending, Inv, Keeps, Lawful, Normalize, ValidIds;
    if ValidIds(item) && PlanFor(st, s, item).Write? && written < |Pending(st, s.files, item)| {
      var files := Torn(st, s.files, item, written);
      assert KeyOf(item) in files && OwnedBy(KeyOf(item), item.userId, item.agentId);
      TornWriteIsSafe(st, s, item, written);
    }
  }

  // ---- Runs ----

  /** No byte in a file and no row is ever lost, frozen logs included. */
  ghost predicate Grows(s: State, t: State) {
    && (forall k | k in s.files :: k in t.files && s.files[k] <= t.files[k])
    && (forall id | id in s.rows :: id in t.rows && t.rows[id] == s.rows[id])
  }

  /** Each readable log keeps its entries and rows. */
  ghost predicate KeepsReadable(st: Stamps, s: State, t: State) {
    forall userId, agentId {:trigger Own(t, userId, agentId)} | AllAccepted(st, t.files, userId, agentId) ::
      && AllAccepted(st, s.files, userId, agentId)
      && Keeps(st, Own(s, userId, agentId), Own(t, userId, agentId))
  }

  lemma StepIsLocal(st: Stamps, s: State, step: Step)
    ensures Local(s, After(st, s, step), ItemOf(step))
  {
    hide Local, Save, Crash, Normalize;
    match step
    case Saved(raw, now, fault) => SaveIsLocal(st, s, raw, now, fault);
    case Crashed(_, _, written) => CrashIsLocal(st, s, ItemOf(step), written);
  }

  lemma LocalGrows(s: State, t: State, item: Memory)
    requires Local(s, t, item)
    ensures Grows(s, t)
  {
  }

  /** Nothing is written any more for an owner with a refused file. */
  lemma FrozenStays(st: Stamps, s: State, step: Step)
    requires !AllAccepted(st, s.files, ItemOf(step).userId, ItemOf(step).agentId)
    ensures After(st, s, step) == s
  {
    hide Parse, Normalize;
    var item := ItemOf(step);
    match step
    case Saved(raw, now, fault) =>
      var k :| k in s.files && OwnedBy(k, item.userId, item.agentId) && Parse(st, s.files[k]).Err?;
      RefusedFileFreezes(st, s, k, raw, now, fault);
    case Crashed(_, _, written) =>
      PlanWithoutRow(st, s, item);
      hide PlanFor, Pending, ValidIds;
  }

  /** The step's own owner. */
  lemma OwnerIsSafe(st: Stamps, s: State, step: Step)
    requires Lawful(st) && Datable(step.now) && !Foreign(s, ItemOf(step))
    requires Inv(st, Own(s, ItemOf(step).userId, ItemOf(step).agentId))
    requires AllAccepted(st, After(st, s, step).files, ItemOf(step).userId, ItemOf(step).agentId)
    ensures var (u, a) := (ItemOf(step).userId, ItemOf(step).agentId);
            Inv(st, Own(After(st, s, step), u, a)) && Keeps(st, Own(s, u, a), Own(After(st, s, step), u, a))
  {
    var item := ItemOf(step);
    OwnFind(st, After(st, s, step).files, item.userId, item.agentId, item.id);
    NormalizeIsFinal(step.raw, step.now);
    hide Inv, Keeps, Lawful, Normalize, Save, Crash, AllAccepted, FindEntry, Foreign;
    match step
    case Saved(raw, now, fault) =>
      OwnSave(st, s, raw, now, fault);
      SaveKeepsInv(st, Own(s, item.userId, item.agentId), raw, now, fault);
    case Crashed(_, _, written) =>
      OwnCrash(st, s, item, written);
      CrashKeepsInv(st, Own(s, item.userId, item.agentId), item, written);
  }

  lemma NormalizeIsFinal(raw: Memory, now: Time)
    ensures Normalize(Normalize(raw).(recordedAt := now)) == Normalize(raw).(recordedAt := now)
  {
    TrimSpaceIsTrimmed(raw.id);
    TrimSpaceIsTrimmed(raw.agentId);
    TrimSpaceIsTrimmed(raw.userId);
    TrimSpaceIsTrimmed(raw.question);
    TrimSpaceIsTrimmed(raw.answer);
    hide TrimSpace;
  }

  lemma ForeignChangesNothing(st: Stamps, s: State, step: Step)
    requires Foreign(s, ItemOf(step))
    ensures After(st, s, step) == s
  {
    ForeignIsRejected(st, s, ItemOf(step));
    hide PlanFor, ValidIds, Normalize, Pending;
  }

  /** One owner through one step, be it theirs or not. */
  lemma StepKeepsOwner(st: Stamps, s: State, step: Step, userId: string, agentId: string)
    requires Lawful(st) && Datable(step.now) && Safe(st, s)
    requires AllAccepted(st, After(st, s, step).files, userId, agentId)
    ensures AllAccepted(st, s.files, userId, agentId)
    ensures Inv(st, Own(After(st, s, step), userId, agentId))
    ensures Keeps(st, Own(s, userId, agentId), Own(After(st, s, step), userId, agentId))
  {
    hide Inv, Keeps, Lawful, After, ItemOf, Own, AllAccepted, FindEntry, Local, Foreign;
    var (t, item) := (After(st, s, step), ItemOf(step));
    if item.userId == userId && item.agentId == agentId {
      if !AllAccepted(st, s.files, userId, agentId) {
        FrozenStays(st, s, step);
        assert false;
      }
      assert Inv(st, Own(s, userId, agentId));
      if Foreign(s, item) {
        ForeignChangesNothing(st, s, step);
        Unchanged(st, Own(s, userId, agentId));
      } else {
        OwnerIsSafe(st, s, step);
      }
    } else {
      StepIsLocal(st, s, step);
      LocalToOwner(s, t, item, userId, agentId);
      AcceptedByOwn(st, s, t, userId, agentId);
      Unchanged(st, Own(s, userId, agentId));
    }
  }

  lemma AcceptedByOwn(st: Stamps, s: State, t: State, userId: string, agentId: string)
    requires Own(t, userId, agentId) == Own(s, userId, agentId)
    ensures AllAccepted(st, t.files, userId, agentId) == AllAccepted(st, s.files, userId, agentId)
  {
    OwnFind(st, s.files, userId, agentId, "");
    OwnFind(st, t.files, userId, agentId, "");
    hide AllAccepted, FindEntry, OwnFiles, OwnRows;
  }

  /** Every step, torn or not, keeps the invariant. */
  lemma StepIsSafe(st: Stamps, s: State, step: Step)
    requires Lawful(st) && Datable(step.now) && Safe(st, s)
    ensures var t := After(st, s, step);
            Safe(st, t) && KeepsReadable(st, s, t) && Grows(s, t)
  {
    hide Inv, Keeps, Lawful, After, ItemOf, Own, AllAccepted, Local, Grows;
    var t := After(st, s, step);
    StepIsLocal(st, s, step);
    LocalGrows(s, t, ItemOf(step));
    forall userId, agentId | AllAccepted(st, t.files, userId, agentId)
      ensures AllAccepted(st, s.files, userId, agentId) && Inv(st, Own(t, userId, agentId))
      ensures Keeps(st, Own(s, userId, agentId), Own(t, userId, agentId))
    {
      StepKeepsOwner(st, s, step, userId, agentId);
    }
  }

  lemma SaveIsSafe(st: Stamps, s: State, raw: Memory, now: Time, fault: Fault)
    requires Lawful(st) && Datable(now) && Safe(st, s)
    ensures Safe(st, Save(st, s, raw, now, fault).0)
  {
    hide Safe, Lawful, Datable, Save, KeepsReadable, Grows;
    StepIsSafe(st, s, Saved(raw, now, fault));
  }

  lemma ReadableTransitive(st: Stamps, s: State, t: State, u: State)
    requires KeepsReadable(st, s, t) && KeepsReadable(st, t, u)
    ensures KeepsReadable(st, s, u)
  {
    hide Keeps, AllAccepted, Own;
    forall userId, agentId | AllAccepted(st, u.files, userId, agentId)
      ensures AllAccepted(st, s.files, userId, agentId)
      ensures Keeps(st, Own(s, userId, agentId), Own(u, userId, agentId))
    {
      var own := Own(t, userId, agentId);
      assert Own(u, userId, agentId) == Own(u, userId, agentId);
      KeepsTransitive(st, Own(s, userId, agentId), own, Own(u, userId, agentId));
    }
  }

  lemma GrowsTransitive(s: State, t: State, u: State)
    requires Grows(s, t) && Grows(t, u)
    ensures Grows(s, u)
  {
  }

  lemma NothingChanges(st: Stamps, s: State)
    requires Safe(st, s)
    ensures KeepsReadable(st, s, s) && Grows(s, s)
  {
    hide Inv, Keeps, AllAccepted, Own;
    forall userId, agentId | AllAccepted(st, s.files, userId, agentId)
      ensures Keeps(st, Own(s, userId, agentId), Own(s, userId, agentId))
    {
      Unchanged(st, Own(s, userId, agentId));
    }
  }

  lemma {:induction false} RunIsSafe(st: Stamps, s: State, steps: seq<Step>)
    requires Lawful(st) && InTime(steps) && Safe(st, s)
    ensures var t := AfterAll(st, s, steps);
            Safe(st, t) && KeepsReadable(st, s, t) && Grows(s, t)
  {
    hide After, Safe, KeepsReadable, Grows, Lawful;
    if steps == [] {
      NothingChanges(st, s);
    } else {
      var (front, last) := (steps[..|steps| - 1], steps[|steps| - 1]);
      RunIsSafe(st, s, front);
      var mid := AfterAll(st, s, front);
      StepIsSafe(st, mid, last);
      ReadableTransitive(st, s, mid, After(st, mid, last));
      GrowsTransitive(s, mid, After(st, mid, last));
    }
  }

  lemma InitialIsSafe(st: Stamps, s: State)
    requires Initial(s)
    ensures Safe(st, s)
  {
    forall userId, agentId
      ensures Inv(st, Own(s, userId, agentId))
    {
      InitialInv(st, Own(s, userId, agentId));
    }
  }

  /** What the invariant says about one log, in terms of the whole stores: each version-1 row has its entry in the daily file
      of its own time, and each ID is in at most one daily file. */
  ghost predicate InOrder(st: Stamps, s: State, userId: string, agentId: string) {
    && (forall id | id in s.rows && RowOf(s.rows[id], userId, agentId) :: RowInv(st, s.files, id, s.rows[id]))
    && (forall id :: |Holders(st, s.files, userId, agentId, id)| <= 1)
  }

  lemma ReadableIsInOrder(st: Stamps, s: State, userId: string, agentId: string)
    requires Safe(st, s) && AllAccepted(st, s.files, userId, agentId)
    ensures InOrder(st, s, userId, agentId)
  {
    hide Parse, FindEntry, AllAccepted;
    var own := Own(s, userId, agentId);
    assert Inv(st, own);
    forall id | id in s.rows && RowOf(s.rows[id], userId, agentId)
      ensures RowInv(st, s.files, id, s.rows[id])
    {
      assert RowInv(st, own.files, id, own.rows[id]);
    }
    forall id
      ensures |Holders(st, s.files, userId, agentId, id)| <= 1
    {
      OneHolder(st, own.files, userId, agentId, id);
      assert Holders(st, s.files, userId, agentId, id) == Holders(st, own.files, userId, agentId, id);
    }
  }

  /** Safety with crashes inside writes. After any run, no byte and no row is ever lost; and every log whose files are all
      still accepted is in order, with the entries and rows it had at any earlier point unchanged. */
  lemma RunsAreSafe(st: Stamps, s: State, steps: seq<Step>, more: seq<Step>)
    requires Lawful(st) && Initial(s) && InTime(steps) && InTime(more)
    ensures var (t, u) := (AfterAll(st, s, steps), AfterAll(st, AfterAll(st, s, steps), more));
            && Grows(t, u) && KeepsReadable(st, t, u)
            && forall userId, agentId | AllAccepted(st, u.files, userId, agentId) :: InOrder(st, u, userId, agentId)
  {
    hide AfterAll, Initial, Safe, Lawful, InTime, Grows, KeepsReadable, AllAccepted, InOrder;
    InitialIsSafe(st, s);
    RunIsSafe(st, s, steps);
    var t := AfterAll(st, s, steps);
    RunIsSafe(st, t, more);
    var u := AfterAll(st, t, more);
    forall userId, agentId | AllAccepted(st, u.files, userId, agentId)
      ensures InOrder(st, u, userId, agentId)
    {
      ReadableIsInOrder(st, u, userId, agentId);
    }
  }

  // ---- Retrying after a crash ----

  /** The search depends only on where the ID has entries, and which. */
  lemma SearchAgrees(st: Stamps, files: map<FileKey, string>, files': map<FileKey, string>, userId: string,
                     agentId: string, id: string)
    requires FilesInv(st, files) && FilesInv(st, files')
    requires forall k ::
               && (id in EntriesOf(st, files', k) <==> id in EntriesOf(st, files, k))
               && (id in EntriesOf(st, files, k) ==> EntriesOf(st, files', k)[id] == EntriesOf(st, files, k)[id])
    ensures FindEntry(st, files', userId, agentId, id) == FindEntry(st, files, userId, agentId, id)
  {
    hide Parse, FindEntry, FilesInv;
    AcceptedFiles(st, files);
    AcceptedFiles(st, files');
    forall k
      ensures k in Holders(st, files', userId, agentId, id) <==> k in Holders(st, files, userId, agentId, id)
    {
      assert id in EntriesOf(st, files', k) <==> id in EntriesOf(st, files, k);
    }
    SameHoldersSameEntry(st, files, files', userId, agentId, id);
  }

  /** Whether a crash in a write of `item` writes at all. */
  ghost predicate Tears(st: Stamps, s: State, item: Memory, written: nat) {
    ValidIds(item) && PlanFor(st, s, item).Write? && written < |Pending(st, s.files, item)|
  }

  /** `files'` has the entries of `files`, and perhaps the item's. */
  ghost predicate Grown(st: Stamps, files: map<FileKey, string>, files': map<FileKey, string>, item: Memory) {
    var k := KeyOf(item);
    && k in files'
    && (forall l | l != k :: EntriesOf(st, files', l) == EntriesOf(st, files, l))
    && (|| EntriesOf(st, files', k) == EntriesOf(st, files, k)
        || EntriesOf(st, files', k) == EntriesOf(st, files, k)[item.id := EntryOf(st, item)])
  }

  /** A torn file that is accepted has its old entries, or those and the new one. */
  lemma TornIsGrown(st: Stamps, files: map<FileKey, string>, item: Memory, written: nat)
    requires Lawful(st) && Ready(item) && FilesInv(st, files) && item.id !in EntriesOf(st, files, KeyOf(item))
    requires written < |Pending(st, files, item)| && Parse(st, Torn(st, files, item, written)[KeyOf(item)]).Ok?
    ensures Grown(st, files, Torn(st, files, item, written), item)
  {
    hide Parse, Pending, Lawful, FilesInv, Ready, EntryOf, KeyOf, EntriesOf;
    var (k, torn) := (KeyOf(item), Torn(st, files, item, written));
    TornFile(st, files, item, written);
    forall l
      ensures EntriesOf(st, torn, l) == if l == k then Parse(st, torn[k]).value else EntriesOf(st, files, l)
    {
      EntriesAfter(st, files, k, torn[k], l);
    }
    if k in files && Parse(st, torn[k]) == Parse(st, files[k]) {
      EntriesAfter(st, files, k, files[k], k);
      assert files[k := files[k]] == files;
    }
    hide Torn;
  }

  lemma EntriesAfter(st: Stamps, files: map<FileKey, string>, k: FileKey, content: string, l: FileKey)
    requires Parse(st, content).Ok?
    ensures EntriesOf(st, files[k := content], l) == if l == k then Parse(st, content).value else EntriesOf(st, files, l)
  {
    hide Parse;
  }

  lemma TearingIsGrown(st: Stamps, s: State, item: Memory, written: nat)
    requires Lawful(st) && Inv(st, s) && Ready(item) && Tears(st, s, item, written)
    requires AllAccepted(st, Crash(st, s, item, written).files, item.userId, item.agentId)
    ensures var t := Crash(st, s, item, written);
            t.rows == s.rows && item.id !in s.rows && Inv(st, t) && Grown(st, s.files, t.files, item)
    ensures FindEntry(st, s.files, item.userId, item.agentId, item.id) == Ok(None)
  {
    PlanWithoutRow(st, s, item);
    ReadyIsFinal(item);
    CrashKeepsInv(st, s, item, written);
    NotYetHeld(st, s, item);
    assert OwnedBy(KeyOf(item), item.userId, item.agentId);
    hide Parse, FindEntry, PlanFor, Pending, Lawful, FilesInv, ValidIds, Ready, EntriesOf, Grown, RowInv;
    TornIsGrown(st, s.files, item, written);
  }

  lemma ReadyIsFinal(item: Memory)
    requires Ready(item)
    ensures Normalize(item) == item && Datable(item.recordedAt)
  {
    hide Normalize, ValidIds, Datable;
  }

  lemma NotYetHeld(st: Stamps, s: State, item: Memory)
    requires Inv(st, s) && FindEntry(st, s.files, item.userId, item.agentId, item.id) == Ok(None)
    ensures FilesInv(st, s.files) && item.id !in EntriesOf(st, s.files, KeyOf(item))
  {
    SearchFinds(st, s.files, item.userId, item.agentId, item.id);
    NotElsewhere(st, s.files, item, KeyOf(item));
    hide FindEntry, FilesInv, EntriesOf, Holders, RowInv;
  }

  /** Growth by one memory does not disturb another. */
  lemma GrownKeepsSearch(st: Stamps, files: map<FileKey, string>, files': map<FileKey, string>, other: Memory, item: Memory)
    requires FilesInv(st, files) && FilesInv(st, files') && Grown(st, files, files', other) && other.id != item.id
    ensures FindEntry(st, files', item.userId, item.agentId, item.id) == FindEntry(st, files, item.userId, item.agentId, item.id)
  {
    hide FindEntry, FilesInv, EntriesOf, EntryOf, KeyOf;
    SearchAgrees(st, files, files', item.userId, item.agentId, item.id);
  }

  lemma TearsNothing(st: Stamps, s: State, item: Memory, written: nat)
    requires !Tears(st, s, item, written)
    ensures Crash(st, s, item, written) == s
  {
    hide ValidIds, PlanFor, Pending, Torn;
  }

  lemma TearsReady(st: Stamps, s: State, item: Memory, written: nat)
    requires Tears(st, s, item, written) && Normalize(item) == item && Datable(item.recordedAt)
    ensures Ready(item)
  {
    hide ValidIds, PlanFor, Pending, Normalize, Datable;
  }

  /** A crash in the write of another ID does not disturb the item, as long as the log is readable. */
  lemma OtherCrashUndisturbed(st: Stamps, s: State, item: Memory, other: Memory, written: nat)
    requires Lawful(st) && Inv(st, s) && Normalize(other) == other && Datable(other.recordedAt) && other.id != item.id
    requires AllAccepted(st, Crash(st, s, other, written).files, other.userId, other.agentId)
    ensures Undisturbed(st, s, Crash(st, s, other, written), item)
  {
    hide Crash, Tears, FindEntry, FilesInv, Inv, Grown, Lawful, AllAccepted, Normalize, Datable, Ready;
    var t := Crash(st, s, other, written);
    if Tears(st, s, other, written) {
      TearsReady(st, s, other, written);
      TearingIsGrown(st, s, other, written);
      FilesOfInv(st, s);
      FilesOfInv(st, t);
      GrownKeepsSearch(st, s.files, t.files, other, item);
    } else {
      TearsNothing(st, s, other, written);
    }
  }

  /** After a crash in its own write the item can still be saved, as long as the log is readable. */
  lemma CrashLeavesCompatible(st: Stamps, s: State, raw: Memory, now: Time, written: nat)
    requires Lawful(st) && Inv(st, s) && Datable(now) && Save(st, s, raw, now, NoFault).1.error == None
    requires var item := Normalize(raw).(recordedAt := now);
             AllAccepted(st, Crash(st, s, item, written).files, item.userId, item.agentId)
    ensures var item := Normalize(raw).(recordedAt := now);
            Compatible(st, Crash(st, s, item, written), item)
  {
    var item := Normalize(raw).(recordedAt := now);
    SucceedsIff(st, s, raw, now);
    hide Normalize, Save, Compatible, Lawful, Inv, FilesInv, AllAccepted;
    if Tears(st, s, item, written) {
      NormalizedIsReady(raw, now);
      TornIsCompatible(st, s, item, written);
    }
    hide PlanFor, Pending, ValidIds;
  }

  lemma TornIsCompatible(st: Stamps, s: State, item: Memory, written: nat)
    requires Lawful(st) && Inv(st, s) && Ready(item) && Tears(st, s, item, written)
    requires AllAccepted(st, Crash(st, s, item, written).files, item.userId, item.agentId)
    ensures Compatible(st, Crash(st, s, item, written), item)
  {
    hide Crash, Tears, FindEntry, FilesInv, Inv, Lawful, AllAccepted, Ready, EntriesOf, EntryOf, MatchesMemory, WriteMarkdown,
         KeyOf;
    var t := Crash(st, s, item, written);
    TearingIsGrown(st, s, item, written);
    FilesOfInv(st, s);
    FilesOfInv(st, t);
    EntryWillMatch(st, s, item);
    if EntriesOf(st, t.files, KeyOf(item)) == EntriesOf(st, s.files, KeyOf(item)) {
      SearchAgrees(st, s.files, t.files, item.userId, item.agentId, item.id);
    } else {
      EntryIsFound(st, t.files, item, EntryOf(st, item));
    }
  }

  lemma EntryWillMatch(st: Stamps, s: State, item: Memory)
    requires Lawful(st) && Ready(item) && Inv(st, s) && item.id !in s.rows
    requires FindEntry(st, s.files, item.userId, item.agentId, item.id) == Ok(None)
    ensures MatchesMemory(st, EntryOf(st, item), item)
  {
    hide *;
    WriteKeepsInv(st, s, item);
  }

  lemma FilesOfInv(st: Stamps, s: State)
    requires Inv(st, s)
    ensures FilesInv(st, s.files)
  {
  }

  lemma EntryIsFound(st: Stamps, files: map<FileKey, string>, item: Memory, e: Entry)
    requires FilesInv(st, files) && KeyOf(item) in files
    requires item.id in EntriesOf(st, files, KeyOf(item)) && EntriesOf(st, files, KeyOf(item))[item.id] == e
    ensures FindEntry(st, files, item.userId, item.agentId, item.id) == Ok(Some(e))
  {
    hide Parse, FindEntry, FilesInv;
    assert KeyOf(item) in Holders(st, files, item.userId, item.agentId, item.id);
    SearchFinds(st, files, item.userId, item.agentId, item.id);
  }

  function OwnOf(s: State, item: Memory): State {
    Own(s, item.userId, item.agentId)
  }

  /** Whether the log of the item's owner is readable. */
  ghost predicate Readable(st: Stamps, s: State, item: Memory) {
    AllAccepted(st, s.files, item.userId, item.agentId)
  }

  lemma SameOwnUndisturbed(st: Stamps, s: State, t: State, item: Memory)
    requires OwnOf(t, item) == OwnOf(s, item) && Inv(st, OwnOf(s, item))
    ensures Undisturbed(st, OwnOf(s, item), OwnOf(t, item), item)
  {
    hide FindEntry, Inv, OwnOf;
  }

  lemma OwnersStepUndisturbed(st: Stamps, s: State, step: Step, item: Memory)
    requires Lawful(st) && Datable(step.now) && Inv(st, OwnOf(s, item)) && Readable(st, After(st, s, step), item)
    requires ItemOf(step).id != item.id && !Foreign(s, ItemOf(step))
    requires ItemOf(step).userId == item.userId && ItemOf(step).agentId == item.agentId
    ensures Undisturbed(st, OwnOf(s, item), OwnOf(After(st, s, step), item), item)
  {
    var other := ItemOf(step);
    OwnFind(st, After(st, s, step).files, item.userId, item.agentId, item.id);
    NormalizeIsFinal(step.raw, step.now);
    hide Inv, Keeps, Lawful, Normalize, Save, Crash, AllAccepted, FindEntry, Foreign, Undisturbed;
    match step
    case Saved(raw, now, fault) =>
      OwnSave(st, s, raw, now, fault);
      OtherSaveUndisturbed(st, OwnOf(s, item), item, raw, now, fault);
    case Crashed(_, _, written) =>
      OwnCrash(st, s, other, written);
      OtherCrashUndisturbed(st, OwnOf(s, item), item, other, written);
  }

  /** Another step does not disturb the item, whosever it is, as long as the item's log stays readable. */
  lemma OtherStepUndisturbed(st: Stamps, s: State, step: Step, item: Memory)
    requires Lawful(st) && Datable(step.now) && Safe(st, s) && Readable(st, After(st, s, step), item)
    requires ItemOf(step).id != item.id
    ensures Readable(st, s, item) && Undisturbed(st, OwnOf(s, item), OwnOf(After(st, s, step), item), item)
    ensures Foreign(After(st, s, step), item) == Foreign(s, item)
  {
    StepKeepsOwner(st, s, step, item.userId, item.agentId);
    StepIsLocal(st, s, step);
    OthersRow(s, After(st, s, step), ItemOf(step), item);
    assert Inv(st, Own(s, item.userId, item.agentId));
    hide Inv, Safe, Lawful, After, ItemOf, AllAccepted, FindEntry, Local, Foreign, Undisturbed, Own;
    if ItemOf(step).userId == item.userId && ItemOf(step).agentId == item.agentId {
      if Foreign(s, ItemOf(step)) {
        ForeignChangesNothing(st, s, step);
        SameOwnUndisturbed(st, s, s, item);
      } else {
        OwnersStepUndisturbed(st, s, step, item);
      }
    } else {
      LocalToOwner(s, After(st, s, step), ItemOf(step), item.userId, item.agentId);
      SameOwnUndisturbed(st, s, After(st, s, step), item);
    }
  }

  lemma OthersRow(s: State, t: State, other: Memory, item: Memory)
    requires Local(s, t, other) && other.id != item.id
    ensures Foreign(t, item) == Foreign(s, item)
  {
  }

  lemma {:induction false} OtherStepsUndisturbed(st: Stamps, s: State, steps: seq<Step>, item: Memory)
    requires Lawful(st) && InTime(steps) && Safe(st, s) && Readable(st, AfterAll(st, s, steps), item)
    requires forall i | 0 <= i < |steps| :: ItemOf(steps[i]).id != item.id
    ensures Readable(st, s, item) && Undisturbed(st, OwnOf(s, item), OwnOf(AfterAll(st, s, steps), item), item)
    ensures Foreign(AfterAll(st, s, steps), item) == Foreign(s, item)
  {
    hide After, Safe, Lawful, FindEntry, Inv, OwnOf, Foreign, Readable, ItemOf, KeepsReadable, Grows;
    if steps == [] {
      ReadableInv(st, s, item);
      SameOwnUndisturbed(st, s, s, item);
    } else {
      var (front, last) := (steps[..|steps| - 1], steps[|steps| - 1]);
      RunIsSafe(st, s, front);
      OtherStepUndisturbed(st, AfterAll(st, s, front), last, item);
      OtherStepsUndisturbed(st, s, front, item);
    }
  }

  lemma ReadableInv(st: Stamps, s: State, item: Memory)
    requires Safe(st, s) && Readable(st, s, item)
    ensures Inv(st, OwnOf(s, item))
  {
    hide Inv, AllAccepted;
    assert Inv(st, Own(s, item.userId, item.agentId));
  }

  /** The first attempt, cut short anywhere, leaves the item savable. */
  lemma FirstAttempt(st: Stamps, s: State, first: Step)
    requires Lawful(st) && Datable(first.now) && Safe(st, s) && Readable(st, After(st, s, first), ItemOf(first))
    requires Save(st, s, first.raw, first.now, NoFault).1.error == None
    ensures var item := ItemOf(first);
            && Readable(st, s, item) && !Foreign(s, item) && !Foreign(After(st, s, first), item)
            && Save(st, OwnOf(s, item), first.raw, first.now, NoFault).1.error == None
            && Compatible(st, OwnOf(After(st, s, first), item), item)
  {
    var item := ItemOf(first);
    StepKeepsOwner(st, s, first, item.userId, item.agentId);
    SuccessIsOwn(st, s, first);
    StepIsLocal(st, s, first);
    ReadableInv(st, s, item);
    OwnFind(st, After(st, s, first).files, item.userId, item.agentId, item.id);
    OwnRowStays(s, After(st, s, first), item);
    hide Inv, Keeps, Lawful, Normalize, Save, Crash, AllAccepted, FindEntry, Foreign, Compatible, Local, Safe;
    OwnSave(st, s, first.raw, first.now, NoFault);
    match first
    case Saved(raw, now, fault) =>
      OwnSave(st, s, raw, now, fault);
      FailureLeavesCompatible(st, OwnOf(s, item), raw, now, fault);
    case Crashed(raw, now, written) =>
      OwnCrash(st, s, item, written);
      CrashLeavesCompatible(st, OwnOf(s, item), raw, now, written);
  }

  lemma SuccessIsOwn(st: Stamps, s: State, first: Step)
    requires Save(st, s, first.raw, first.now, NoFault).1.error == None
    ensures !Foreign(s, ItemOf(first))
  {
    if Foreign(s, ItemOf(first)) {
      ForeignIsRejected(st, s, ItemOf(first));
      hide PlanFor, Normalize, ValidIds, Foreign;
      assert false;
    }
  }

  lemma OwnRowStays(s: State, t: State, item: Memory)
    requires Local(s, t, item) && !Foreign(s, item)
    ensures !Foreign(t, item)
  {
  }

  /** A save that the owner's part of the stores lets succeed. */
  lemma Retry(st: Stamps, s: State, raw: Memory, now: Time)
    requires var item := Normalize(raw).(recordedAt := now);
             Lawful(st) && Datable(now) && !Foreign(s, item) && Inv(st, OwnOf(s, item))
             && Save(st, OwnOf(s, item), raw, now, NoFault).1.error == None
    ensures var (item, (t, r)) := (Normalize(raw).(recordedAt := now), Save(st, s, raw, now, NoFault));
            && r == SaveResult(true, None) && item.id in t.rows && !Foreign(t, item)
            && OwnOf(t, item) == Save(st, OwnOf(s, item), raw, now, NoFault).0
            && Inv(st, OwnOf(t, item)) && Compatible(st, OwnOf(t, item), item)
            && (item.id in s.rows ==> t == s)
            && (item.id !in s.rows ==>
                  var found := FindEntry(st, s.files, item.userId, item.agentId, item.id);
                  found.Ok? && (found.value.Some? ==>
                    t.files == s.files && t.rows[item.id].memory.recordedAt == found.value.value.recordedAt))
  {
    var item := Normalize(raw).(recordedAt := now);
    OwnSave(st, s, raw, now, NoFault);
    OwnFind(st, s.files, item.userId, item.agentId, item.id);
    SuccessStores(st, OwnOf(s, item), raw, now);
    SaveKeepsInv(st, OwnOf(s, item), raw, now, NoFault);
    SaveIsLocal(st, s, raw, now, NoFault);
    hide Normalize, Save, Inv, FindEntry, Compatible, Lawful;
    LocalOwn(s, Save(st, s, raw, now, NoFault).0, item);
  }

  /** What a save did is seen in the owner's part. */
  lemma LocalOwn(s: State, t: State, item: Memory)
    requires Local(s, t, item) && !Foreign(s, item)
    ensures !Foreign(t, item)
    ensures item.id in t.rows <==> item.id in OwnOf(t, item).rows
    ensures item.id in s.rows <==> item.id in OwnOf(s, item).rows
    ensures OwnOf(t, item).files == OwnOf(s, item).files ==> t.files == s.files
    ensures OwnOf(t, item) == OwnOf(s, item) ==> t == s
    ensures item.id in t.rows ==> OwnOf(t, item).rows[item.id] == t.rows[item.id]
  {
    var k := KeyOf(item);
    assert OwnedBy(k, item.userId, item.agentId);
    assert k in t.files <==> k in OwnOf(t, item).files;
    assert k in s.files <==> k in OwnOf(s, item).files;
    assert k in t.files ==> OwnOf(t, item).files[k] == t.files[k];
    assert k in s.files ==> OwnOf(s, item).files[k] == s.files[k];
  }

  /** Retry convergence with crashes inside writes. A save that would succeed is cut short anywhere; then anything happens to
      other IDs, crashes included; and the log of its owner is still readable. Then repeating it succeeds. If the first attempt
      has left an entry, no second one is added and the row takes the entry's time. Any further repetition changes nothing. */
  lemma RetryConverges(st: Stamps, s: State, first: Step, others: seq<Step>, t1: Time, t2: Time)
    requires Lawful(st) && Safe(st, s) && Datable(first.now) && InTime(others) && Datable(t1) && Datable(t2)
    requires Save(st, s, first.raw, first.now, NoFault).1.error == None
    requires forall i | 0 <= i < |others| :: ItemOf(others[i]).id != ItemOf(first).id
    requires Readable(st, AfterAll(st, After(st, s, first), others), ItemOf(first))
    ensures var item := ItemOf(first);
            var s1 := AfterAll(st, After(st, s, first), others);
            var (s2, r2) := Save(st, s1, first.raw, t1, NoFault);
            && r2 == SaveResult(true, None) && item.id in s2.rows
            && (item.id !in s1.rows ==>
                  var found := FindEntry(st, s1.files, item.userId, item.agentId, item.id);
                  found.Ok? && (found.value.Some? ==>
                    s2.files == s1.files && s2.rows[item.id].memory.recordedAt == found.value.value.recordedAt))
            && Save(st, s2, first.raw, t2, NoFault) == (s2, SaveResult(true, None))
  {
    hide Save, FindEntry, Lawful, Normalize, Inv, Compatible, Safe, After, AfterAll, Readable, Own, Undisturbed, Foreign,
         KeepsReadable, Grows;
    var item := ItemOf(first);
    var s0 := After(st, s, first);
    var s1 := AfterAll(st, s0, others);
    StepIsSafe(st, s, first);
    OtherStepsUndisturbed(st, s0, others, item);
    FirstAttempt(st, s, first);
    ReadableInv(st, s, item);
    UndisturbedCompatible(st, OwnOf(s0, item), OwnOf(s1, item), item);
    UndisturbedInv(st, OwnOf(s0, item), OwnOf(s1, item), item);
    RetryAtAnyTime(st, s, s1, first.raw, first.now, t1);
    var s2 := Save(st, s1, first.raw, t1, NoFault).0;
    CompatibleAtAnyTime(st, OwnOf(s2, item), Normalize(first.raw).(recordedAt := t1), first.now);
    NormalizeTwice(first.raw, t1, first.now);
    RetryAtAnyTime(st, s, s2, first.raw, first.now, t2);
  }

  lemma UndisturbedInv(st: Stamps, a: State, b: State, item: Memory)
    requires Undisturbed(st, a, b, item)
    ensures Inv(st, b)
  {
    hide Inv, FindEntry;
  }

  /** What would have succeeded at `t0` in `s` succeeds at any time in a later state. */
  lemma RetryAtAnyTime(st: Stamps, s: State, later: State, raw: Memory, t0: Time, now: Time)
    requires var item := Normalize(raw).(recordedAt := t0);
             Lawful(st) && Datable(t0) && Datable(now) && Inv(st, OwnOf(s, item)) && Inv(st, OwnOf(later, item))
             && Save(st, OwnOf(s, item), raw, t0, NoFault).1.error == None
             && Compatible(st, OwnOf(later, item), item) && !Foreign(later, item)
    ensures var (item, (t, r)) := (Normalize(raw).(recordedAt := t0), Save(st, later, raw, now, NoFault));
            && r == SaveResult(true, None) && item.id in t.rows && !Foreign(t, item) && Inv(st, OwnOf(t, item))
            && Compatible(st, OwnOf(t, item), item.(recordedAt := now))
            && (item.id in later.rows ==> t == later)
            && (item.id !in later.rows ==>
                  var found := FindEntry(st, later.files, item.userId, item.agentId, item.id);
                  found.Ok? && (found.value.Some? ==>
                    t.files == later.files && t.rows[item.id].memory.recordedAt == found.value.value.recordedAt))
  {
    hide Save, FindEntry, Lawful, Normalize, Inv, Compatible, Own;
    var item := Normalize(raw).(recordedAt := t0);
    RepeatSucceeds(st, OwnOf(s, item), OwnOf(later, item), raw, t0, now);
    assert OwnOf(later, item) == OwnOf(later, item.(recordedAt := now));
    Retry(st, later, raw, now);
  }
}
