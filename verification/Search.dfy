/** `replaceSearchContentFromMarkdown` of `internal/transport/http/handler.go`: search results from the database get their
    content from the memory log. */
module Search {
  import opened Clock
  import opened Collections
  import opened Text
  import opened Markdown
  import opened SaveProtocol
  import opened SaveLaws

  datatype SearchResult = SearchResult(id: string, content: string, recordedAt: Time)

  /** What the log has for one result. */
  function Lookup(st: Stamps, files: map<FileKey, string>, userId: string, agentId: string, r: SearchResult): Result<string> {
    if r.recordedAt == ZERO_TIME then Err(MarkdownError)
    else if !ValidPathId(userId) || !ValidPathId(agentId) then Err(InvalidRequest)
    else
      var entries :- Entries(st, files, FileKey(userId, agentId, Day(r.recordedAt)));
      if r.id in entries then Ok(TrimSpace(entries[r.id].payload)) else Err(MarkdownError)
  }

  /** The log has content for a result if and only if the result has a time, the IDs are valid, and the daily file of that time is
      accepted and holds an entry with its ID; the content is the trimmed payload of that entry. */
  lemma LookupIff(st: Stamps, files: map<FileKey, string>, userId: string, agentId: string, r: SearchResult, content: string)
    ensures Lookup(st, files, userId, agentId, r) == Ok(content) <==>
            && r.recordedAt != ZERO_TIME && ValidPathId(userId) && ValidPathId(agentId)
            && var k := FileKey(userId, agentId, r.recordedAt / DAY);
            && k in files && Parse(st, files[k]).Ok? && r.id in Parse(st, files[k]).value
            && content == TrimSpace(Parse(st, files[k]).value[r.id].payload)
  {
    hide Parse, TrimSpace, ValidPathId;
  }

  predicate Found(st: Stamps, files: map<FileKey, string>, userId: string, agentId: string, r: SearchResult) {
    Lookup(st, files, userId, agentId, r).Ok?
  }

  function Resolved(st: Stamps, files: map<FileKey, string>, userId: string, agentId: string, r: SearchResult): SearchResult {
    var content := Lookup(st, files, userId, agentId, r);
    if content.Ok? then r.(content := content.value) else r
  }

  function FileOf(userId: string, agentId: string, r: SearchResult): FileKey {
    FileKey(userId, agentId, Day(r.recordedAt))
  }

  /** The first `n` results grouped by their daily file: each group holds exactly the places of its results. */
  ghost predicate Grouped(userId: string, agentId: string, results: seq<SearchResult>, groups: map<FileKey, seq<nat>>, n: nat)
    requires n <= |results|
  {
    && (forall k | k in groups :: groups[k] != [] && k.userId == userId && k.agentId == agentId)
    && (forall k, m | k in groups && 0 <= m < |groups[k]| ::
          groups[k][m] < n && FileOf(userId, agentId, results[groups[k][m]]) == k)
    && (forall i | 0 <= i < n ::
          FileOf(userId, agentId, results[i]) in groups && i in groups[FileOf(userId, agentId, results[i])])
    && (forall i | 0 <= i < n :: results[i].recordedAt != ZERO_TIME && ValidPathId(userId) && ValidPathId(agentId))
  }

  lemma GroupOneMore(userId: string, agentId: string, results: seq<SearchResult>, groups: map<FileKey, seq<nat>>, n: nat)
    requires n < |results| && Grouped(userId, agentId, results, groups, n)
    requires results[n].recordedAt != ZERO_TIME && ValidPathId(userId) && ValidPathId(agentId)
    ensures var k := FileOf(userId, agentId, results[n]);
            Grouped(userId, agentId, results, groups[k := (if k in groups then groups[k] else []) + [n]], n + 1)
  {
    hide ValidPathId;
    var k := FileOf(userId, agentId, results[n]);
    var places := (if k in groups then groups[k] else []) + [n];
    assert n in places;
    forall i | 0 <= i < n && FileOf(userId, agentId, results[i]) == k
      ensures i in places
    {
      assert i in groups[k];
    }
  }

  method GroupByFile(userId: string, agentId: string, results: array<SearchResult>)
    returns (r: Result<map<FileKey, seq<nat>>>)
    ensures r.Ok? ==> Grouped(userId, agentId, results[..], r.value, results.Length)
    ensures r.Err? ==> exists i :: 0 <= i < results.Length
                                   && (results[i].recordedAt == ZERO_TIME || !ValidPathId(userId) || !ValidPathId(agentId))
  {
    hide ValidPathId, Grouped;
    var groups: map<FileKey, seq<nat>> := map[];
    NothingGrouped(userId, agentId, results[..]);
    var i := 0;
    while i < results.Length
      invariant 0 <= i <= results.Length && Grouped(userId, agentId, results[..], groups, i)
    {
      if results[i].recordedAt == ZERO_TIME {
        return Err(MarkdownError);
      }
      if !ValidPathId(userId) || !ValidPathId(agentId) {
        return Err(InvalidRequest);
      }
      GroupOneMore(userId, agentId, results[..], groups, i);
      var k := FileOf(userId, agentId, results[i]);
      groups := groups[k := (if k in groups then groups[k] else []) + [i]];
      i := i + 1;
    }
    return Ok(groups);
  }

  lemma NothingGrouped(userId: string, agentId: string, results: seq<SearchResult>)
    ensures Grouped(userId, agentId, results, map[], 0)
  {
  }

  function WithContent(entries: map<string, Entry>, r: SearchResult): SearchResult {
    if r.id in entries then r.(content := TrimSpace(entries[r.id].payload)) else r
  }

  /** The results of one file. */
  method ReplaceFromFile(entries: map<string, Entry>, places: seq<nat>, results: array<SearchResult>)
    returns (error: Option<Error>)
    requires forall m | 0 <= m < |places| :: places[m] < results.Length
    modifies results
    ensures error == None <==> forall m | 0 <= m < |places| :: old(results[places[m]]).id in entries
    ensures forall i | 0 <= i < results.Length ::
              results[i] == old(results[i]) || (i in places && results[i] == WithContent(entries, old(results[i])))
    ensures error == None ==>
              forall m | 0 <= m < |places| :: results[places[m]] == WithContent(entries, old(results[places[m]]))
  {
    hide TrimSpace;
    var j := 0;
    while j < |places|
      invariant 0 <= j <= |places|
      invariant forall i | 0 <= i < results.Length ::
                  results[i] == old(results[i]) || (i in places && results[i] == WithContent(entries, old(results[i])))
      invariant forall m | 0 <= m < j :: old(results[places[m]]).id in entries
      invariant forall m | 0 <= m < j :: results[places[m]] == WithContent(entries, old(results[places[m]]))
    {
      var i := places[j];
      assert i in places;
      if results[i].id !in entries {
        return Some(MarkdownError);
      }
      results[i] := results[i].(content := TrimSpace(entries[results[i].id].payload));
      j := j + 1;
    }
    return None;
  }

  /** Either every result is found in the log and has its content from there, or there is an error, some result is not found,
      and only results that are found may have been replaced. */
  method ReplaceSearchContent(st: Stamps, files: map<FileKey, string>, userId: string, agentId: string,
                              results: array<SearchResult>)
    returns (error: Option<Error>)
    modifies results
    ensures error == None <==> forall i | 0 <= i < results.Length :: Found(st, files, userId, agentId, old(results[i]))
    ensures error == None ==>
              forall i | 0 <= i < results.Length :: results[i] == Resolved(st, files, userId, agentId, old(results[i]))
    ensures forall i | 0 <= i < results.Length ::
              results[i] == old(results[i]) || results[i] == Resolved(st, files, userId, agentId, old(results[i]))
  {
    hide Parse, TrimSpace, ValidPathId;
    ghost var before := results[..];
    var groups := GroupByFile(userId, agentId, results);
    if groups.Err? {
      assert exists i :: 0 <= i < results.Length && !Found(st, files, userId, agentId, before[i]);
      return Some(groups.error);
    }
    var rest := groups.value.Keys;
    while rest != {}
      invariant rest <= groups.value.Keys
      invariant forall i | 0 <= i < results.Length ::
                  if FileOf(userId, agentId, before[i]) in rest then results[i] == before[i]
                  else Found(st, files, userId, agentId, before[i])
                       && results[i] == Resolved(st, files, userId, agentId, before[i])
      decreases rest
    {
      ghost var _ := SomeElement(rest);
      var k :| k in rest;
      var places := groups.value[k];
      EntriesFind(st, files, userId, agentId, before, groups.value, k);
      var entries := Entries(st, files, k);
      if entries.Err? {
        assert !Found(st, files, userId, agentId, before[places[0]]);
        return Some(entries.error);
      }
      error := ReplaceFromFile(entries.value, places, results);
      if error.Some? {
        return;
      }
      rest := rest - {k};
    }
    return None;
  }

  lemma EntriesFind(st: Stamps, files: map<FileKey, string>, userId: string, agentId: string, before: seq<SearchResult>,
                    groups: map<FileKey, seq<nat>>, k: FileKey)
    requires Grouped(userId, agentId, before, groups, |before|) && k in groups
    ensures forall m | 0 <= m < |groups[k]| ::
              && groups[k][m] < |before|
              && var r := before[groups[k][m]];
              && FileOf(userId, agentId, r) == k
              && (Found(st, files, userId, agentId, r) <==>
                    Entries(st, files, k).Ok? && r.id in Entries(st, files, k).value)
              && (Entries(st, files, k).Ok? ==>
                    Resolved(st, files, userId, agentId, r) == WithContent(Entries(st, files, k).value, r))
  {
    hide Parse, TrimSpace, ValidPathId;
    forall m | 0 <= m < |groups[k]|
      ensures groups[k][m] < |before| && FileOf(userId, agentId, before[groups[k][m]]) == k
    {
    }
  }

  /** In every state the save protocol reaches, looking up a stored memory gives the text that was stored for it, trimmed. */
  lemma StoredIsFound(st: Stamps, s: State, id: string, content: string)
    requires Inv(st, s) && id in s.rows && s.rows[id].version == DAILY_MARKDOWN_VERSION
    ensures var row := s.rows[id].memory;
            Lookup(st, s.files, row.userId, row.agentId, SearchResult(id, content, row.recordedAt))
            == Ok(TrimSpace(Payload(st, row, row.recordedAt)))
  {
    hide Parse, TrimSpace, ValidPathId, ValidMarkerId, Payload, Inv;
    SearchResolves(st, s, id);
  }
}
