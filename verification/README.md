# Verified model of agent-cortex

This Dafny project models four parts of the agent-cortex service and proves the properties they exist for.

1. **Keyed rate limiters** (`Clock`, `RateLimit`, `Gcra`, `TokenBucket`, `SlidingWindow`, `BucketedWindow`, `ShardedState`,
   `Limiters`). Four algorithms decide over one sharded store that evicts idle keys a few at a time. Each algorithm is a
   function on one key's state, implemented by a method that updates that state in place; the store is a class over an array
   of shard maps. On top of them: `Bisimulation` (GCRA and the token bucket are the same limiter), `Eviction` (evicting idle
   keys is invisible), `ConcurrentStore` (the store at the grain of its atomic steps), `LockSections` (what each finished lock
   section has done) and `AloneCaller` (a caller that is alone does what the sequential store does). GCRA is the virtual
   scheduling algorithm of Annex A of ITU-T Recommendation I.371, extended with batches.
2. **Memory log and save protocol** (`Text`, `Markdown`, `MarkdownLaws`, `MarkdownGrammar`, `SaveProtocol`, `SaveAnswers`,
   `SaveLaws`, `SaveRuns`, `Search`). A length-prefixed printer and parser over arbitrary payload bytes, which texts that parser
   accepts, and the two-store protocol built on it: the markdown log
   is written first, the database row second, and a retry adopts the entry an interrupted save has left behind. `SaveRuns` adds
   crashes inside a write, which may freeze one log while the others go on.
3. **Session manager** (`Session`, `SessionProtocol`). The manager is a class over session objects, each of its lock sections
   proved against a function on its table; `SessionProtocol` interleaves those same functions with the goroutines, event
   channels and contexts.
4. **Event stream of a question** (`Sse`, `QaStream`). The writer, the client's line parser (a subset of section 9.2.6 of the
   WHATWG HTML Living Standard) and the handler loop between model stream and response.

## How to read it

- Time is an unbounded integer of nanoseconds since the Unix epoch; token counts are reals; strings are byte strings.
- Where the source changes state step by step, a class or a method with loops does the same here, and its `ensures` equates
  the new state with a specification function of the old one. The laws are lemmas about those functions.
- The clock is read before the shard lock is taken, so under concurrency it need not be monotone per key. A clock that never
  goes back is therefore an explicit assumption (`Orderly`, `ClockAdvances`) of eviction transparency, of the bisimulation
  and of both window algorithms. The GCRA rate bound does without it.
- The behaviour of the environment is a parameter: which entries a cleanup happens to meet, when a context is cancelled, which
  write or lookup fails, where a connection breaks, what the model streams.
- Timestamps (`Markdown.Stamps`) and JSON (`Sse.Codec`) are parameters with a stated law. `Markdown.Lawful` takes RFC 3339
  section 5.6 timestamps to read back as the whole second they were written for. `Sse.Lawful` takes the JSON objects of the
  events at hand, and of no others, to be printed on one line, to read back as printed, and not to be readable when cut short.

## What the code does where its documentation or one's expectation says otherwise

- `MaxKeys` is not a hard cap under concurrency: the count can reach `MaxKeys` plus the number of shards minus one, and no more
  (`ConcurrentStore.Capacity`, `ConcurrentStore.CapacityIsSharp`). Sequentially it is one (`ShardedState.Store.WithEntry`).
- Eviction of idle keys is invisible exactly when `IdleTTL` covers the time a key takes to recover from a full burst
  (`Limiters.GcraTtlIsExact` and its three siblings). For GCRA, when `Rate` divides `Window`, the default of ten windows covers
  it while `Burst` is at most ten times `Rate`, and no longer, but for one more request when the interval is a single
  nanosecond (`Limiters.DefaultTtlCovers`).
- GCRA and the token bucket differ as soon as `Rate` does not divide `Window` (`Bisimulation.DivisibilityNeeded`).
- A batch larger than the burst is answered with a finite `RetryAfter`, but is never admitted
  (`Gcra.OversizedNeverAdmitted`, `TokenBucket.OversizedNeverAdmitted`).
- `RetryAfter` of the bucketed window is too short exactly when the window has fewer nanoseconds than buckets; otherwise it
  overshoots by `Window mod BucketCount` (`BucketedWindow.RetryAfterOvershoots`).
- `ResetAfter` of the bucketed window is the wait for a full batch exactly when the buckets divide the window
  (`BucketedWindow.FullBatchAfterReset`); for the other three limiters it always is, after an admission. After a denial GCRA and
  the sliding window repeat `RetryAfter` there, and GCRA reports nothing left even where a smaller batch would fit
  (`Gcra.DenialFields`, `SlidingWindow.DenialFields`).
- The payload of a memory entry determines question and answer only if the question does not contain the answer heading
  (`MarkdownLaws.AmbiguousIff`), so "content never changes" is stated on payload bytes.
- A `Close` that finds the manager closed returns at once, possibly while sessions that the first `Close` has yet to cancel run
  on (`SessionProtocol.LaterCloseReturnsEarly`).

## Model

| member | source | states |
|---|---|---|
| RateLimit.NormalizeIdleTTL | pkg/ratelimit/ratelimit.go:158-166 | a positive setting is kept; otherwise ten windows, or ten seconds without a window; so cleanup is never switched off |
| RateLimit.BatchLaw | pkg/ratelimit/gcra.go:58-60 | for any algorithm whose batches grow one request at a time: a batch of n is admitted iff n single requests at the same instant all are, with the same resulting state |
| RateLimit.RelatedRunsAgree | pkg/ratelimit/ratelimit.go:23-27 | two algorithms with a simulation between their states answer every run of requests alike |
| Gcra.New | pkg/ratelimit/gcra.go:29-56 | exactly the configurations that are accepted; the burst is the configured one or else Rate; the interval is the largest that fits Rate times into Window, but at least one nanosecond |
| Gcra.AllowN | pkg/ratelimit/gcra.go:113-149 | the in-place update leaves the schedule, and gives the answer, that the specification prescribes |
| Gcra.EffectiveIsLater | pkg/ratelimit/gcra.go:124-127 | starting from the later of schedule and clock is what the code does iff it is not a clock reading before Go's zero time on a fresh key |
| Gcra.AdmittedIff | pkg/ratelimit/gcra.go:114-149 | a batch is admitted iff the schedule is ahead of the clock by no more than the intervals it leaves free; only then does the schedule move, by exactly n intervals |
| Gcra.RemainingIsLargest | pkg/ratelimit/gcra.go:141-155 | Remaining on an admission is the largest batch admissible at that instant |
| Gcra.RetryAfterIsExact | pkg/ratelimit/gcra.go:129-139 | absent other calls, a denied batch of at most the burst is admitted after waiting d iff d reaches RetryAfter |
| Gcra.ResetAfterIsExact | pkg/ratelimit/gcra.go:141-148 | absent other calls, after an admission a full burst is admitted after waiting d iff d reaches ResetAfter |
| Gcra.DenialFields | pkg/ratelimit/gcra.go:114-139 | a denial reports nothing left and one time twice: the wait for this batch, or one interval for a batch above the burst |
| Gcra.OversizedNeverAdmitted | pkg/ratelimit/gcra.go:114-122 | a batch above the burst is never admitted, at any later time |
| Gcra.BatchEqualsSingles | pkg/ratelimit/gcra.go:113-149 | the batch law for GCRA |
| Gcra.ScheduleAdvances | pkg/ratelimit/gcra.go:141-142 | over any run, under any clock, each admitted unit pushes the schedule at least one interval |
| Gcra.RateBound | pkg/ratelimit/gcra.go:113-149 | from any admission to any later one, the admitted units take at most the elapsed time plus one burst, with no assumption that the clock is monotone |
| Gcra.ZeroInstantForgets | pkg/ratelimit/gcra.go:124-127 | a concrete run before Go's zero time that breaks the bound, so that assumption is needed |
| TokenBucket.New | pkg/ratelimit/token_bucket.go:28-49 | exactly the accepted configurations; rate and burst are the configured ones, the window too, or else one second |
| TokenBucket.RefillInPlace | pkg/ratelimit/token_bucket.go:131-140 | the in-place refill is the specified one, and nothing changes when the clock has not advanced |
| TokenBucket.AllowN | pkg/ratelimit/token_bucket.go:109-129 | the in-place update of the bucket matches the specification, on admissions and denials |
| TokenBucket.RefillComposes | pkg/ratelimit/token_bucket.go:131-140 | refilling in two stages is refilling once |
| TokenBucket.RemainingIsLargest | pkg/ratelimit/token_bucket.go:118-124 | Remaining on an admission is the largest batch admissible at that instant |
| TokenBucket.WaitIsLeast | pkg/ratelimit/token_bucket.go:142-149 | the rounded wait is the least whole number of nanoseconds that brings the missing tokens |
| TokenBucket.RetryAfterIsExact | pkg/ratelimit/token_bucket.go:126-149 | absent other calls, a denied batch of at most the burst is admitted after waiting d iff d reaches RetryAfter |
| TokenBucket.RetryAfterIsMissing | pkg/ratelimit/token_bucket.go:126-149 | for any denied batch, RetryAfter is the least time in which the missing tokens would flow in |
| TokenBucket.ResetAfterIsExact | pkg/ratelimit/token_bucket.go:112-155 | absent other calls, admitted or denied, a full batch is admitted after waiting d iff d reaches ResetAfter |
| TokenBucket.DenialFields | pkg/ratelimit/token_bucket.go:112-129 | a denial takes no token, and its Remaining is the largest batch that would have been admitted |
| TokenBucket.OversizedNeverAdmitted | pkg/ratelimit/token_bucket.go:126-140 | a batch above the burst is never admitted |
| TokenBucket.BatchEqualsSingles | pkg/ratelimit/token_bucket.go:109-129 | the batch law for the token bucket |
| Bisimulation.ConstructorsMatch | pkg/ratelimit/gcra.go:29-56 | a configuration with positive Burst whose Rate divides Window is accepted by both constructors, with one interval per token |
| Bisimulation.FreshRelated | pkg/ratelimit/gcra.go:81-83 | the states of a new key are related: full bucket, schedule at the clock |
| Bisimulation.RelatedLater | pkg/ratelimit/token_bucket.go:131-140 | "tokens = burst - intervals ahead" survives the passing of time |
| Bisimulation.StepAgrees | pkg/ratelimit/token_bucket.go:109-154 | one request keeps the relation and gets the same verdict; the same Remaining and ResetAfter if admitted; the same RetryAfter if denied with n at most the burst |
| Bisimulation.Bisimilar | pkg/ratelimit/gcra.go:113-155 | hence both limiters answer every run of requests alike in those respects |
| Bisimulation.DivisibilityNeeded | pkg/ratelimit/gcra.go:41-44 | with at least a nanosecond per request, the first request already tells the limiters apart iff Rate does not divide Window |
| SlidingWindow.New | pkg/ratelimit/sliding_window.go:25-40 | exactly the accepted configurations, with Rate as the limit and the configured window |
| SlidingWindow.PruneRecords | pkg/ratelimit/sliding_window.go:123-130 | the index loop drops exactly the leading expired records |
| SlidingWindow.AllowN | pkg/ratelimit/sliding_window.go:97-121 | the in-place update of the records, with its append loop, matches the specification |
| SlidingWindow.RemainingIsLargest | pkg/ratelimit/sliding_window.go:105-114 | Remaining on an admission is the largest batch admissible at that instant |
| SlidingWindow.RetryAfterIsExact | pkg/ratelimit/sliding_window.go:132-142 | absent other calls, after a denial of any size one unit more than Remaining is admitted after waiting d iff d reaches RetryAfter, which is zero only with nothing recorded |
| SlidingWindow.NotBeforeRetryAfter | pkg/ratelimit/sliding_window.go:116-120 | a larger batch is never admitted earlier than RetryAfter |
| SlidingWindow.ResetAfterIsExact | pkg/ratelimit/sliding_window.go:107-154 | absent other calls, after an admission a full batch is admitted after waiting d iff d reaches ResetAfter, if no record is ahead of the clock |
| SlidingWindow.ResetAfterInRuns | pkg/ratelimit/sliding_window.go:107-154 | and that is so after every run with a non-decreasing clock |
| SlidingWindow.DenialFields | pkg/ratelimit/sliding_window.go:116-120 | after a denial Remaining is still the largest admissible batch, and ResetAfter repeats RetryAfter |
| SlidingWindow.BatchEqualsSingles | pkg/ratelimit/sliding_window.go:97-121 | the batch law for the sliding window |
| SlidingWindow.WindowIsExact | pkg/ratelimit/sliding_window.go:97-130 | with a non-decreasing clock, after every run the records are the full admission history cut to the last window, and every half-open interval of window length in that history holds at most Rate admissions |
| BucketedWindow.New | pkg/ratelimit/bucketed_sliding_window.go:27-50 | exactly the accepted configurations, with Rate as the limit, the configured window and bucket count or else twelve; a bucket is the largest that fits that often into the window, but at least one nanosecond |
| BucketedWindow.PruneBuckets | pkg/ratelimit/bucketed_sliding_window.go:156-163 | deleting while iterating in any order leaves exactly the buckets of the window |
| BucketedWindow.Tally | pkg/ratelimit/bucketed_sliding_window.go:114-125 | the loop, in any order, finds the units in the window and the oldest bucket in use; the latest is always the current one |
| BucketedWindow.AllowN | pkg/ratelimit/bucketed_sliding_window.go:107-154 | the in-place update of the counters matches the specification |
| BucketedWindow.RemainingIsLargest | pkg/ratelimit/bucketed_sliding_window.go:133-143 | Remaining on an admission is the largest batch admissible at that instant |
| BucketedWindow.BatchEqualsSingles | pkg/ratelimit/bucketed_sliding_window.go:107-143 | the batch law for the bucketed window |
| BucketedWindow.AdmittedWhenOldestLeaves | pkg/ratelimit/bucketed_sliding_window.go:156-167 | after a denial of any size, one unit more than Remaining is admitted exactly from the instant the oldest bucket in use leaves the window |
| BucketedWindow.RetryAfterOvershoots | pkg/ratelimit/bucketed_sliding_window.go:145-171 | after a denial of any size, waiting RetryAfter suffices for one unit more than Remaining iff the window has a nanosecond for each bucket, and then overshoots the first admissible instant by Window mod BucketCount |
| BucketedWindow.ResetAfterIsRest | pkg/ratelimit/bucketed_sliding_window.go:136-153 | ResetAfter, of an admission or a denial, is the rest of the window that began with the current bucket |
| BucketedWindow.FullBatchAfterReset | pkg/ratelimit/bucketed_sliding_window.go:133-142 | absent other calls, after an admission a full batch is admitted after waiting d iff d reaches ResetAfter less what the buckets leave of the window; so ResetAfter is exact iff the buckets divide the window |
| BucketedWindow.DenialFields | pkg/ratelimit/bucketed_sliding_window.go:127-153 | after a denial Remaining is still the largest admissible batch |
| BucketedWindow.IndexTruncates | pkg/ratelimit/bucketed_sliding_window.go:165-167 | an instant lies within its bucket; before the epoch the indexes are mirrored, so bucket 0 alone covers two bucket sizes |
| BucketedWindow.RunIsTallied | pkg/ratelimit/bucketed_sliding_window.go:107-163 | in every run with a clock that never goes back, the counters equal the admissions per bucket, and any BucketCount consecutive buckets admitted at most Rate |
| BucketedWindow.RunIsFilled | pkg/ratelimit/bucketed_sliding_window.go:107-163 | the counters of every such run satisfy what the RetryAfter laws require |
| BucketedWindow.ShortSpanBound | pkg/ratelimit/bucketed_sliding_window.go:35-39 | any span of at most BucketCount - 1 buckets admits at most Rate units |
| BucketedWindow.WindowSpanBound | pkg/ratelimit/bucketed_sliding_window.go:35-39 | any span of window length admits at most twice Rate, also when the buckets do not divide the window |
| BucketedWindow.BoundsAreSharp | pkg/ratelimit/bucketed_sliding_window.go:35-39 | for all parameters, one nanosecond more than BucketCount - 1 buckets can admit twice Rate |
| ShardedState.Store.constructor | pkg/ratelimit/sharded_state.go:30-42 | a new store is empty, with the default shard count and idle time where none are given |
| ShardedState.Store.CleanupLocked | pkg/ratelimit/sharded_state.go:122-139 | in any iteration order: only expired entries go, and either none is left or sixteen are gone; the counter follows |
| ShardedState.Store.CleanupExpired | pkg/ratelimit/sharded_state.go:108-115 | every shard is cleaned once so, and the counter follows |
| ShardedState.Store.WithEntry | pkg/ratelimit/sharded_state.go:44-88 | the store is cleaned and then serves the key: stored value updated, new value stored, ephemeral value used, or refusal; the counter stays the number of entries, each key stays in its shard, MaxKeys is never exceeded; a refusal has deleted nothing and met only live entries |
| ShardedState.Store.Reset | pkg/ratelimit/sharded_state.go:90-102 | exactly the key is removed, and the answer tells whether it was there |
| ShardedState.FullMeansFull | pkg/ratelimit/sharded_state.go:58-77 | a call is refused iff new keys are rejected, the key is new, exactly MaxKeys entries are stored and every one was seen within IdleTTL: the cap of sixteen deletions never causes a refusal |
| ShardedState.EntryIsServed | pkg/ratelimit/sharded_state.go:44-88 | in terms of the store before a call: other entries only go when idle beyond IdleTTL, a live key is served from its own value, a new one from a fresh value, which is stored unless the store is full of live keys; then AllowNewKey decides with the fresh value and stores nothing |
| Eviction.SectionMirrors | pkg/ratelimit/sharded_state.go:44-102 | each lock section keeps the evicting store a mirror of one that never evicts, whatever its cleanup deletes |
| Eviction.EvictionIsTransparent | pkg/ratelimit/sharded_state.go:44-139 | for any algorithm that may forget idle states, every run of requests, resets and cleanups takes exactly the decisions of the store that never evicts |
| Limiters.AllowN | pkg/ratelimit/gcra.go:62-96 | a finished context or a non-positive size changes nothing; otherwise the key is served and the others are kept, in terms of the store before the call; the call is a lock section of the transparent store, and is refused iff the store is full of live keys |
| Limiters.GcraTransparent | pkg/ratelimit/gcra.go:77-87 | eviction is invisible under GCRA when IdleTTL covers burst intervals |
| Limiters.GcraTtlIsExact | pkg/ratelimit/gcra.go:46-55 | and only then: after a full burst, a forgotten key decides the next burst as the kept one would iff IdleTTL covers the drain time |
| Limiters.DefaultTtlCovers | pkg/ratelimit/ratelimit.go:158-166 | when Rate divides Window, the default idle time covers the drain time iff Burst is at most ten times Rate, plus one if the interval is one nanosecond |
| Limiters.TokenBucketTransparent | pkg/ratelimit/token_bucket.go:70-83 | eviction is invisible under the token bucket when IdleTTL covers the time to fill it |
| Limiters.TokenBucketTtlIsExact | pkg/ratelimit/token_bucket.go:70-83 | and only then: a bucket emptied by a full burst serves the next as a new one would iff the idle time fills it |
| Limiters.SlidingWindowTransparent | pkg/ratelimit/sliding_window.go:61-71 | eviction is invisible under the sliding window when IdleTTL covers the window |
| Limiters.SlidingWindowTtlIsExact | pkg/ratelimit/sliding_window.go:61-71 | and only then: a window filled by a full burst serves the next as an empty one would iff the idle time covers it |
| Limiters.BucketedWindowTransparent | pkg/ratelimit/bucketed_sliding_window.go:71-81 | eviction is invisible under the bucketed window when IdleTTL covers all its buckets |
| Limiters.BucketedWindowTtlIsExact | pkg/ratelimit/bucketed_sliding_window.go:71-81 | and only then: after a full burst at the beginning of any bucket, the next is served as by a new key iff the idle time covers all buckets |
| ConcurrentStore.StepKeepsInv | pkg/ratelimit/sharded_state.go:44-139 | every atomic step of every caller keeps the counter within its known lag of the entries, and reservations within the bound; what a whole section does to the entries is `LockSections.SectionIsDone` |
| ConcurrentStore.Capacity | pkg/ratelimit/sharded_state.go:56-102 | over all interleavings: the counter equals the entries whenever no lock is held, keys live only in their hash shard, and neither counter nor entries exceed MaxKeys plus shards minus one |
| ConcurrentStore.CapacityIsSharp | pkg/ratelimit/sharded_state.go:58-86 | for every MaxKeys and number of shards, callers can leave MaxKeys plus shards minus one entries, so MaxKeys alone is not a bound |
| LockSections.SectionIsDone | pkg/ratelimit/sharded_state.go:44-139 | every lock section of every interleaving, from taking the lock to letting go: a reset removes exactly its key; every other section removes only entries idle beyond the time to live, at most sixteen, and all of them if fewer; a look stamps a stored key; the second look stores a new one iff the counter it reads leaves room |
| LockSections.OtherShardsKept | pkg/ratelimit/sharded_state.go:47-55 | a step changes only the shard whose lock it takes, holds or lets go |
| LockSections.FreeShardStays | pkg/ratelimit/sharded_state.go:47-55 | between two sections of a shard its entries stay as they are |
| AloneCaller.ResetAlone | pkg/ratelimit/sharded_state.go:90-102 | a reset that runs alone takes exactly its key out of its shard, and the counter follows: the sequential Reset |
| AloneCaller.WithEntryAlone | pkg/ratelimit/sharded_state.go:44-88 | a call that runs alone leaves the store that the sequential WithEntry leaves: cleaned shards, then the key updated, stored or refused, and refused only in a store full of live keys |
| Text.IndexIsFirst | internal/transport/http/memory_markdown.go:152-160 | the search finds the first occurrence, and nothing iff there is none |
| Text.TrimSpaceIsTrimmed | internal/transport/http/handler.go:302-310 | trimming, with all of Unicode's blanks in UTF-8, is final |
| Text.TrimSpaceTakesSpaces | internal/transport/http/handler.go:302-310 | a text is white-space characters, then its trimmed form, then white-space characters, and the trimmed form neither begins nor ends with one: what goes is all blanks at both ends and nothing else |
| Text.LastIndexIsLast | internal/transport/http/memory_markdown.go:208-211 | the backward search finds the last occurrence, and nothing iff there is none |
| Text.AtoiReads | internal/transport/http/memory_markdown.go:216-219 | every text of digits, with or without a sign, is read as its value |
| Text.AtoiSplits | internal/transport/http/memory_markdown.go:216-219 | and nothing else is read as a number |
| Text.AtoiDecimal | internal/transport/http/memory_markdown.go:216-219 | a printed length reads back as itself |
| Markdown.ReadAt | internal/transport/http/memory_markdown.go:157-194 | the cursor arithmetic of one iteration reads the entry the specification reads, or fails when it does |
| Markdown.EntriesById | internal/transport/http/memory_markdown.go:145-201 | the cursor loop computes the specified parse, with its error cases |
| MarkdownLaws.PayloadFields | internal/transport/http/memory_markdown.go:129-143 | from a rendered payload the parser takes the ID and the second it was rendered with, whatever question and answer contain |
| MarkdownLaws.BeginLineParses | internal/transport/http/memory_markdown.go:203-221 | a printed begin line reads back as its ID and length, even if the ID contains what looks like a length |
| MarkdownLaws.EntryReads | internal/transport/http/memory_markdown.go:157-194 | a rendered entry reads back as itself, whatever bytes it holds, fake markers included, and whatever follows |
| MarkdownLaws.AppendParses | internal/transport/http/memory_markdown.go:101-127 | appending a new entry to any accepted file parses to the old map plus exactly that entry |
| MarkdownLaws.CreateParses | internal/transport/http/memory_markdown.go:88-99 | a new file parses to exactly its first entry |
| MarkdownLaws.LogParses | internal/transport/http/memory_markdown.go:88-201 | create-then-append of any list of distinct IDs parses back to exactly that list |
| MarkdownGrammar.ParseIff | internal/transport/http/memory_markdown.go:145-201 | a file is accepted iff it is a sequence of entries, at least one and no ID twice, each with any text before it that does not look like a begin line, and with no begin line after the last; and then it stands for exactly those entries |
| MarkdownGrammar.BeginLineIsRead | internal/transport/http/memory_markdown.go:203-221 | every line of the right form is read as its ID and length |
| MarkdownGrammar.ReadIsBeginLine | internal/transport/http/memory_markdown.go:203-221 | and no other line is read |
| MarkdownGrammar.FieldIsFirst | internal/transport/http/memory_markdown.go:223-237 | a field has the value of the first line, blanks trimmed, that begins with its name |
| MarkdownGrammar.FieldIsMissing | internal/transport/http/memory_markdown.go:223-237 | and none if no line does |
| MarkdownLaws.TornAppend | internal/transport/http/memory_markdown.go:101-127 | any proper prefix of an append leaves a file that fails, or parses to the old map, or to the new map iff only the last line break is missing |
| MarkdownLaws.TornCreate | internal/transport/http/memory_markdown.go:88-99 | any proper prefix of a new file fails to parse, unless only the last line break is missing |
| MarkdownLaws.AmbiguousIff | internal/transport/http/memory_markdown.go:129-143 | a payload can be read as one with a shorter question iff the answer heading occurs in the padded question |
| MarkdownLaws.PayloadTellsApart | internal/transport/http/memory_markdown.go:297-299 | between questions without that heading, equal payloads mean equal questions and answers |
| SaveProtocol.Handlers.FindMemoryMarkdownEntry | internal/transport/http/memory_markdown.go:251-285 | the loop over the daily files finds the one entry, reports none, or fails iff a file is unreadable or two hold the ID |
| SaveProtocol.Handlers.WriteMemoryMarkdown | internal/transport/http/memory_markdown.go:301-349 | an existing accepted file grows by the entry, a missing one is created, an unaccepted one stays untouched and the write fails |
| SaveProtocol.Handlers.SaveMemory | internal/transport/http/handler.go:238-300 | the stores and the answer after a save, for each place where lookup, file or database can fail, are the specified ones |
| SaveAnswers.AnswerTable | internal/transport/http/handler.go:238-310 | for whatever IDs, stores and failure: which answer, whether the log is reported as synced, and exactly what the stores hold afterwards, in terms of the trimmed memory |
| SaveAnswers.EntryFormat | internal/transport/http/memory_markdown.go:109-143 | the text of an entry, byte for byte |
| SaveAnswers.ValidPathIdIff | internal/transport/http/memory_markdown.go:31-45 | an ID may name a directory iff it is one ASCII letter, digit, hyphen or underscore after another, at least one |
| SaveAnswers.PathsDiffer | internal/transport/http/memory_markdown.go:55-86 | with valid IDs, the path of a daily file tells its user, its agent and its day: no two logs share a file |
| SaveLaws.WriteAddsEntry | internal/transport/http/memory_markdown.go:301-349 | a write for a new ID adds exactly its entry to the file of its day and changes no other file |
| SaveLaws.SearchFinds | internal/transport/http/memory_markdown.go:251-285 | under the invariant the search succeeds, and finds an entry iff some daily file of the user and agent holds one |
| SaveLaws.SaveKeepsInv | internal/transport/http/handler.go:238-300 | every save, failing or not, keeps the invariant, and no written byte, entry or row changes |
| SaveLaws.ProtocolIsSafe | internal/transport/http/handler.go:238-300 | after any sequence of saves with any failures: each version-1 row has a matching entry in the daily file of its own time, each ID occurs in at most one daily file of its user and agent, and no payload ever changes |
| SaveLaws.OtherSavesUndisturbed | internal/transport/http/handler.go:252-253 | saves of other IDs do not affect what a save of this ID finds |
| SaveLaws.SucceedsIff | internal/transport/http/handler.go:238-300 | a save without failures succeeds iff its IDs are valid and nothing incompatible is stored under its ID |
| SaveLaws.SuccessStores | internal/transport/http/handler.go:259-299 | after a successful save the row exists; if it existed nothing changed; if an orphaned entry existed, it is kept and the row takes its time |
| SaveLaws.FailureLeavesCompatible | internal/transport/http/handler.go:284-297 | whatever an interrupted save leaves behind, the same memory can still be saved |
| SaveLaws.RetryConverges | internal/transport/http/handler.go:255-299 | a failed save, any saves of other IDs, then the retry: it succeeds, adds no second entry and keeps the first attempt's time if that had written, and any further repeat changes nothing |
| SaveLaws.TornFile | internal/transport/http/memory_markdown.go:310-349 | a write torn by a crash leaves the old entries, all of them, or a file that is refused |
| SaveLaws.SavedRowHasContent | internal/transport/http/handler.go:259-299 | a save that succeeds, in whatever state and despite whatever fault, leaves a version-1 row with the content it was asked to save |
| SaveLaws.TornWriteIsSafe | internal/transport/http/memory_markdown.go:310-349 | after a crash at any byte of a write, unless the file is refused from then on, the invariant of both stores holds and nothing written before has changed |
| SaveLaws.RefusedFileFreezes | internal/transport/http/memory_markdown.go:266-273 | when a file is refused, no later save for its user and agent changes anything, and new memories are refused |
| SaveLaws.SearchResolves | internal/transport/http/handler.go:317-348 | under the invariant, every version-1 row has valid IDs and is found in the log by its own time, with the payload rendered for it |
| SaveRuns.OwnSave | internal/transport/http/handler.go:238-300 | a save looks at and changes only what belongs to its user and agent: restricting the stores to them commutes with saving |
| SaveRuns.StepIsSafe | internal/transport/http/handler.go:238-300 | every save and every crash at any byte of a write keeps the invariant of each log that is still readable, with its entries and rows, and loses no byte and no row of any other |
| SaveRuns.RunsAreSafe | internal/transport/http/handler.go:238-300 | after any run of saves, failures and crashes inside writes: no byte and no row is ever lost; in every log that is still readable each version-1 row has its entry, each ID is in at most one daily file, and earlier entries and rows are unchanged |
| SaveRuns.RetryConverges | internal/transport/http/handler.go:255-299 | a save cut short anywhere, inside its write included, then any steps on other IDs, crashes included: while the log is readable the retry succeeds, adds no second entry and keeps the time of one already written, and any further repeat changes nothing |
| Search.LookupIff | internal/transport/http/handler.go:317-345 | a result is found iff it has a time, the IDs are valid and the daily file of that time is accepted and holds its ID; its content is the trimmed payload there |
| Search.ReplaceFromFile | internal/transport/http/handler.go:339-345 | the results of one file are replaced in place up to the first one the file does not hold |
| Search.ReplaceSearchContent | internal/transport/http/handler.go:317-348 | no error iff every result is found in the log, and then each has its content from there; on an error only results that are found may have been replaced |
| Search.StoredIsFound | internal/transport/http/handler.go:317-348 | looking up any version-1 row succeeds in every state that satisfies the invariant of the save protocol, with the stored text |
| Session.Manager.ActiveSessionsLocked | internal/session/manager.go:280-288 | the loop counts exactly the sessions in the table that are not over |
| Session.Manager.StartSession | internal/session/manager.go:76-122 | each answer iff its condition, TooManySessions iff the ID is free and MaxActiveSessions sessions or more are running; a new session is a fresh running object under its trimmed ID; nothing else changes |
| Session.Manager.InterruptSession | internal/session/manager.go:124-145 | each answer iff its condition; the session of the trimmed ID is cancelled iff it is running; no other field of any session changes |
| Session.Manager.CleanupExpired | internal/session/manager.go:162-178 | in any iteration order, exactly the sessions over for longer than the time limit leave the table and become Expired, nothing else about any session changes, and the answer is their number |
| Session.Manager.Close | internal/session/manager.go:180-199 | the manager is closed, and exactly the running sessions in its table are cancelled unless it was closed already; nothing else about any session changes |
| Session.Manager.FinishSession | internal/session/manager.go:269-278 | a running session takes its final state, time and error; one that is over stays as it is |
| SessionProtocol.CleanIsScript | internal/session/manager.go:225-243 | what has been sent for a beginning of the model stream without errors is a beginning of the whole script |
| SessionProtocol.DeltasAt | internal/session/manager.go:225-243 | each event of the model stream stands, at its place, for its text, if any, and then its tool call, if any |
| SessionProtocol.InterruptQueues | internal/session/manager.go:124-145 | an interrupt queues the cancel function of exactly the object that the table holds under the trimmed ID, iff that is running, and changes nothing else |
| SessionProtocol.QueuedUntilCancelled | internal/session/manager.go:140-143 | a queued cancel function stays queued until it is called, and the session is cancelled ever after |
| SessionProtocol.InterruptTakesEffect | internal/session/manager.go:124-145 | after an interrupt of a running session and the call of its cancel function, the session is cancelled in every later state, whatever else happens |
| SessionProtocol.CancelledNeverCompletes | internal/session/manager.go:201-250 | a session cancelled before its goroutine has come to a verdict never completes |
| SessionProtocol.VerdictFollows | internal/session/manager.go:201-250 | a delivery given up ends Interrupted without another event; a refusal or the end of the stream ends Interrupted iff cancelled; a refusal otherwise and any error end Failed with its text; the end otherwise ends Completed; each with its event and no other, in every later state |
| SessionProtocol.BufferBounded | internal/session/manager.go:82-84 | a session is never more events ahead of its consumer than its channel holds |
| SessionProtocol.MoveKeepsInv | internal/session/manager.go:201-250 | every step of a session's goroutine keeps what is known of its events at its place in the code |
| SessionProtocol.StepKeepsInv | internal/session/manager.go:76-278 | every lock section, channel operation, context check and cancellation keeps the invariant of the whole |
| SessionProtocol.EventTrace | internal/session/manager.go:201-278 | in every state of every interleaving: a session's events are empty, or `started`, deltas and at most one terminal event at the end; its final state matches that event, Interrupted if none; its channel is closed only after its state is final; Completed means the deltas are the whole model stream in order |
| SessionProtocol.NothingUndone | internal/session/manager.go:162-199 | a final state changes only to Expired as its session leaves the table; a closed channel stays closed and silent; a running session is never dropped from the table nor overwritten |
| SessionProtocol.LimitHolds | internal/session/manager.go:112-118 | unfinished sessions never exceed MaxActiveSessions in any interleaving |
| SessionProtocol.AfterClose | internal/session/manager.go:180-199 | once the Close that found the manager open has returned, every unfinished session is cancelled and no Start succeeds, for ever |
| SessionProtocol.AfterLaterClose | internal/session/manager.go:182-185 | after a Close that found it closed, no Start succeeds, and every unfinished session is cancelled iff the first Close has none left that needs it |
| SessionProtocol.LaterCloseReturnsEarly | internal/session/manager.go:182-185 | a concrete run in which such a Close has returned while a session runs on, not cancelled |
| SessionProtocol.NeverStuck | internal/session/manager.go:252-267 | a goroutine whose consumer keeps up can always take a step of its own |
| SessionProtocol.OwnStepsRunOut | internal/session/manager.go:201-250 | it takes at most three steps for each event of its stream and seven more |
| Sse.Response.Write | internal/transport/http/sse.go:25-30 | the connection takes a write whole, or as many bytes of it as still fit, and the answer tells which |
| Sse.Response.WriteSse | internal/transport/http/sse.go:20-33 | two writes put one whole frame on the connection, or as much of it as the connection still takes, and the answer tells which |
| Sse.StreamEvents | internal/cli/client/http_client.go:107-174 | the line loop delivers the specified events, with its failures and the unfinished event at the end |
| Sse.FrameLines | internal/transport/http/sse.go:25-30 | a frame is exactly three lines to the client's scanner, whatever follows it |
| Sse.FrameText | internal/transport/http/sse.go:25-30 | the text of a frame for each kind of event |
| Sse.LineEnds | internal/cli/client/http_client.go:107-174 | a line ends at a line feed, and one carriage return before it is not part of it |
| Sse.BlockRead | internal/cli/client/http_client.go:107-174 | any block of lines, whoever wrote it, comments and unknown fields included: its last name and the lines of its data in order tell the client one event, nothing, or a failure, after which nothing is read |
| Sse.LastBlockRead | internal/cli/client/http_client.go:165-174 | a last block without an empty line after it is told at the end of the stream, unless reading failed |
| Sse.ReadFrames | internal/cli/client/http_client.go:107-174 | whole frames at the beginning of a stream are read as their events and leave the parser idle, whatever follows |
| Sse.RoundTrip | internal/cli/client/http_client.go:107-174 | parsing the concatenation of any list of written events yields the same events in order, without the heartbeats |
| Sse.TornFrame | internal/cli/client/http_client.go:113-137 | however one frame is cut short, the client sees nothing, a failure, or the whole event |
| Sse.TornStream | internal/cli/client/http_client.go:107-174 | wherever the connection breaks, the client receives a beginning of the events and then at most one failure |
| QaStream.SendText | internal/transport/http/handler.go:184-189 | a delta is written only if it has text, and a failed write is final |
| QaStream.Finish | internal/transport/http/handler.go:164-175 | the turn is saved, a warning and the closing event are written, each at most once and in that order |
| QaStream.Stream | internal/transport/http/handler.go:150-195 | whatever the loop meets and wherever the connection breaks, the response is a beginning of the run's full transcript, and all of it on a connection that holds; `OneMoreInput` says what the transcript is |
| QaStream.OneMoreInput | internal/transport/http/handler.go:155-232 | the transcript, input by input: a heartbeat, a delta if there is text, the error of a failed model stream, or on its end the warning and the closing event for each outcome of saving; nothing once the run has ended |
| QaStream.LastReasonIsLast | internal/transport/http/handler.go:190-192 | the reason reported is that of the last model event whose reason is more than blanks |
| QaStream.FailureIsReported | internal/transport/http/handler.go:177-183 | a run whose model stream fails says all it said before and then exactly one error, `model_stream_failed` with the message |
| QaStream.ErrorIffFailure | internal/transport/http/handler.go:150-195 | a run contains an error event iff its model stream fails while it is running |
| QaStream.FailureIsReceived | internal/transport/http/handler.go:177-183 | on a connection that holds, the client receives that error with its message, after everything the model said |
| QaStream.LogSplits | internal/transport/http/handler.go:155-195 | the answer and the finish reason accumulated at any point are all text and the last reason so far |
| QaStream.FinishedTellsTheTruth | internal/transport/http/handler.go:163-232 | `finished` is last, at most once, never after an error, only if the stream has closed; its answer is all deltas; it claims a saved memory iff there was an answer and the save succeeded, and a warning precedes it iff there was an answer that was not saved |
| QaStream.FinishesWhenClosed | internal/transport/http/handler.go:163-175 | when the model stream closes without error, the run does end with `finished` |
| QaStream.ErrorsAreLast | internal/transport/http/handler.go:177-183 | an error ends the run |
| QaStream.SavedIsStored | internal/transport/http/handler.go:197-232 | when `finished` claims a saved memory, the database has a row under its ID with the trimmed question of the turn and the trimmed answer `finished` reports, for its user and agent; and the save has kept the readable logs in order |
| QaStream.EndToEnd | internal/transport/http/handler.go:150-195 | for every run, save outcome and point of disconnection: if the client receives `finished`, only text and warnings came before it, nothing but a read error follows, and its answer is exactly the text the client received |

## Left out

- Floating point: the token bucket and GCRA's `remaining` use exact arithmetic; `float64` rounding is not modelled.
- Integer and duration overflow, in time arithmetic, in lengths and in `strconv.Atoi`'s range check: integers are unbounded.
- The hash: FNV is any fixed function from keys to numbers.
- Metrics, the limiter registry, configuration files, bootstrap, routing, authorization, embedders, the model client, the
  llama.cpp process and the command line: plumbing around the modelled parts.
- BucketedWindow.WindowSpanBound: assumes a clock that does not read before the epoch, where Go's division by the bucket size
  would make bucket 0 twice as wide; the same holds for the other run laws of the bucketed window.
- Eviction.EvictionIsTransparent: is about stores without `MaxKeys` and takes each lock section as atomic; with `MaxKeys`,
  evicting makes room for keys that a store without eviction would refuse.
- ShardedState.Store.WithEntry: is sequential, so the second look at the shard never finds the key; that branch is part of
  `ConcurrentStore`.
- ConcurrentStore.Capacity: stored values are reduced to the time of last use, since only their number matters there.
- Markdown.Stamps: date and time formatting is a parameter with a law; years from 1 to 9999 only.
- The branch of `writeMemoryMarkdown` for a file that somebody else creates between its two file system calls: the mutex around
  saves leaves nobody who could.
- SQLite, vector search, migrations and database errors other than "lookup failed" and "save failed": the database is a map of
  rows by ID.
- Errors of the file system other than "not written" and "torn".
- `NewManager` and its defaults: the time to live, the size of the event buffer and the limit are parameters.
- Session snapshots (`Status`), metadata and start times: they are copied and never read back by the protocol.
- SessionProtocol.NeverStuck: is about a consumer that keeps up. One that stops reading blocks the terminal event, and with it
  the goroutine, even after a cancellation: `sendTerminal` does not watch the context.
- SessionProtocol.EventTrace: the model stream is what the streamer delivers when not cancelled; a stream that a provider ends
  early without an error counts as whole.
- Sse.RoundTrip: assumes the law of JSON of the events it is about. Events with text that is not valid UTF-8, which Go's encoder
  replaces, do not satisfy it; nor is the client's limit of one mebibyte a line modelled.
- Client-side cancellation while reading the event stream: it cuts the list of events short.
- The request parsing of the HTTP handlers and their error pages.
