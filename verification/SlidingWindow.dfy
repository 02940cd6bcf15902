/** `pkg/ratelimit/sliding_window.go`: the exact window, one record per admitted unit. */
module SlidingWindow {
  import opened Arith
  import opened Clock
  import opened RateLimit

  datatype Params = Params(limit: int, window: int) {
    predicate Valid() {
      limit >= 1 && window >= 1
    }
  }

  function New(c: Config): (r: Result<Params>)
    ensures r.Ok? <==> c.rate > 0 && c.window > 0
    ensures r.Ok? ==> r.value.Valid() && r.value.limit == c.rate && r.value.window == c.window
  {
    if c.rate <= 0 || c.window <= 0 then InvalidConfig else Ok(Params(c.rate, c.window))
  }

  function Prune(p: Params, records: seq<Time>, now: Time): seq<Time> {
    if records == [] || records[0] > now - p.window then records else Prune(p, records[1..], now)
  }

  function Fill(now: Time, n: int): (s: seq<Time>)
    ensures |s| == if n > 0 then n else 0
    ensures forall i | 0 <= i < |s| :: s[i] == now
  {
    if n <= 0 then [] else Fill(now, n - 1) + [now]
  }

  function RetryAfter(p: Params, records: seq<Time>, now: Time): int {
    if records == [] then 0 else NotNegative(records[0] + p.window - now)
  }

  function ResetAfter(p: Params, records: seq<Time>, now: Time): int {
    if records == [] then 0 else NotNegative(records[|records| - 1] + p.window - now)
  }

  function Step(p: Params, records: seq<Time>, now: Time, n: int): (seq<Time>, Decision) {
    var kept := Prune(p, records, now);
    var remaining := p.limit - |kept|;
    if n <= remaining then
      var next := kept + Fill(now, n);
      (next, Decision(true, p.limit, p.limit - |next|, 0, ResetAfter(p, next, now)))
    else
      var retryAfter := RetryAfter(p, kept, now);
      (kept, Decision(false, p.limit, NotNegative(remaining), retryAfter, retryAfter))
  }

  class State {
    var records: seq<Time>

    constructor ()
      ensures records == []
    {
      records := [];
    }
  }

  method PruneRecords(p: Params, records: seq<Time>, now: Time) returns (kept: seq<Time>)
    ensures kept == Prune(p, records, now)
  {
    var cutoff := now - p.window;
    var first := 0;
    while first < |records| && records[first] <= cutoff
      invariant 0 <= first <= |records|
      invariant Prune(p, records, now) == Prune(p, records[first..], now)
    {
      assert records[first..][1..] == records[first + 1..];
      first := first + 1;
    }
    kept := records[first..];
  }

  method AllowN(p: Params, state: State, now: Time, n: int) returns (d: Decision)
    modifies state
    ensures (state.records, d) == Step(p, old(state.records), now, n)
  {
    var records := PruneRecords(p, state.records, now);
    var remaining := p.limit - |records|;
    d := Decision(false, p.limit, remaining, 0, 0);
    if n <= remaining {
      ghost var kept := records;
      var i := 0;
      while i < n
        invariant 0 <= i && (i <= n || i == 0)
        invariant records == kept + Fill(now, i)
      {
        records := records + [now];
        i := i + 1;
      }
      state.records := records;
      d := d.(allowed := true, remaining := p.limit - |records|, resetAfter := ResetAfter(p, records, now));
      return;
    }
    state.records := records;
    d := d.(remaining := NotNegative(remaining), retryAfter := RetryAfter(p, records, now));
    d := d.(resetAfter := d.retryAfter);
  }

  function Limiter(p: Params): Algorithm<seq<Time>> {
    Algorithm(now => [], (records, now, n) => Step(p, records, now, n))
  }

  // ---- Single decisions ----

  lemma {:induction false} PruneStops(p: Params, records: seq<Time>, now: Time)
    ensures var kept := Prune(p, records, now);
            |kept| <= |records| && kept == records[|records| - |kept|..] && (kept == [] || kept[0] > now - p.window)
  {
    if records != [] && records[0] <= now - p.window {
      PruneStops(p, records[1..], now);
    }
  }

  /** What has just been pruned and extended at `now` is not pruned again at `now`. */
  lemma PruneAgain(p: Params, records: seq<Time>, now: Time, n: int)
    requires p.Valid()
    ensures var next := Prune(p, records, now) + Fill(now, n);
            Prune(p, next, now) == next
  {
    PruneStops(p, records, now);
  }

  /** `Remaining` on an admission is the largest batch that would be admitted at the same instant. */
  lemma RemainingIsLargest(p: Params, records: seq<Time>, now: Time, n: int, m: int)
    requires p.Valid() && Step(p, records, now, n).1.allowed
    ensures Step(p, Step(p, records, now, n).0, now, m).1.allowed <==> m <= Step(p, records, now, n).1.remaining
    ensures n >= 0 ==> 0 <= Step(p, records, now, n).1.remaining <= p.limit
  {
    PruneAgain(p, records, now, n);
  }

  /** After a denial, one unit more than `Remaining` is admitted after waiting `d` exactly when `d` reaches `RetryAfter`,
      whatever the size of the denied batch; only where nothing is recorded, there is nothing to wait for. */
  lemma RetryAfterIsExact(p: Params, records: seq<Time>, now: Time, n: int, d: nat)
    requires p.Valid() && |records| <= p.limit
    requires !Step(p, records, now, n).1.allowed
    ensures var (next, denial) := Step(p, records, now, n);
            if denial.remaining == p.limit then denial.retryAfter == 0 && n > p.limit
            else
              denial.retryAfter > 0
              && (Step(p, next, now + d, denial.remaining + 1).1.allowed <==> d >= denial.retryAfter)
  {
    PruneStops(p, records, now);
    var kept := Prune(p, records, now);
    if kept != [] {
      PruneStops(p, kept[1..], now + d);
    }
  }

  /** No larger batch that was denied is admitted before `RetryAfter` either. */
  lemma NotBeforeRetryAfter(p: Params, records: seq<Time>, now: Time, n: int, d: nat)
    requires p.Valid() && !Step(p, records, now, n).1.allowed && d < Step(p, records, now, n).1.retryAfter
    ensures !Step(p, Step(p, records, now, n).0, now + d, n).1.allowed
  {
    PruneStops(p, records, now);
  }

  /** A denial changes nothing that a call at the same instant would see, and its `Remaining` is still the largest batch that
      would be admitted; what it says about waiting it says twice. */
  lemma DenialFields(p: Params, records: seq<Time>, now: Time, n: int, m: int)
    requires p.Valid() && |records| <= p.limit && !Step(p, records, now, n).1.allowed
    ensures var (next, d) := Step(p, records, now, n);
            && (Step(p, records, now, m).1.allowed <==> m <= d.remaining)
            && (Step(p, next, now, m).1.allowed <==> m <= d.remaining)
            && 0 <= d.remaining < n && d.limit == p.limit && d.resetAfter == d.retryAfter
  {
    PruneStops(p, records, now);
    PruneStops(p, Prune(p, records, now), now);
  }

  lemma {:induction false} PruneAll(p: Params, records: seq<Time>, now: Time)
    requires UpTo(records, now - p.window)
    ensures Prune(p, records, now) == []
  {
    if records != [] {
      PruneAll(p, records[1..], now);
    }
  }

  /** After an admission, and without other calls, a full batch is admitted after waiting `d` exactly when `d` reaches
      `ResetAfter`. */
  lemma ResetAfterIsExact(p: Params, records: seq<Time>, now: Time, n: int, d: nat)
    requires p.Valid() && UpTo(records, now) && n >= 1 && Step(p, records, now, n).1.allowed
    ensures var (next, first) := Step(p, records, now, n);
            && (Step(p, next, now + d, p.limit).1.allowed <==> d >= first.resetAfter)
            && first.limit == p.limit && first.retryAfter == 0 && first.resetAfter > 0
  {
    var next := Step(p, records, now, n).0;
    PruneStops(p, records, now);
    assert UpTo(next, now) && next[|next| - 1] == now;
    if d >= p.window {
      assert UpTo(next, now + d - p.window);
      PruneAll(p, next, now + d);
    } else {
      LastStays(p, next, now + d);
    }
  }

  lemma LastStays(p: Params, records: seq<Time>, now: Time)
    requires records != [] && records[|records| - 1] > now - p.window
    ensures |Prune(p, records, now)| > 0
  {
    if Prune(p, records, now) == [] {
      PrunedAreExpired(p, records, now);
      assert false;
    }
  }

  lemma {:induction false} PrunedAreExpired(p: Params, records: seq<Time>, now: Time)
    requires Prune(p, records, now) == []
    ensures UpTo(records, now - p.window)
  {
    if records != [] {
      PrunedAreExpired(p, records[1..], now);
    }
  }

  lemma GrowBatch(p: Params, records: seq<Time>, now: Time, k: nat)
    requires p.Valid() && k >= 1
    ensures BatchGrows(Limiter(p), records, now, k)
  {
    PruneAgain(p, records, now, k);
    var kept := Prune(p, records, now);
    FillOne(kept, now, k);
    hide Prune, Fill;
  }

  lemma FillOne(kept: seq<Time>, now: Time, k: nat)
    ensures kept + Fill(now, k + 1) == kept + Fill(now, k) + Fill(now, 1)
  {
    assert Fill(now, 1) == [now];
  }

  lemma BatchEqualsSingles(p: Params, records: seq<Time>, now: Time, n: nat)
    requires p.Valid() && n >= 1
    ensures Admits(Limiter(p), records, now, n) <==> SinglesAdmitted(Limiter(p), records, now, n)
    ensures Admits(Limiter(p), records, now, n) ==>
              Next(Limiter(p), records, now, n) == AfterSingles(Limiter(p), records, now, n)
  {
    hide BatchGrows, Limiter, Admits, Next;
    forall k: nat | 1 <= k < n
      ensures BatchGrows(Limiter(p), records, now, k)
    {
      GrowBatch(p, records, now, k);
    }
    BatchLaw(Limiter(p), records, now, n);
  }

  // ---- Runs ----

  /** The times after `cutoff`. */
  function After(times: seq<Time>, cutoff: Time): seq<Time> {
    if times == [] then []
    else
      var last := times[|times| - 1];
      After(times[..|times| - 1], cutoff) + if last > cutoff then [last] else []
  }

  /** How many of the times lie in `[lo, hi)`. */
  function CountIn(times: seq<Time>, lo: Time, hi: Time): nat {
    if times == [] then 0
    else
      var last := times[|times| - 1];
      CountIn(times[..|times| - 1], lo, hi) + if lo <= last < hi then 1 else 0
  }

  ghost predicate Sorted(times: seq<Time>) {
    forall i, j | 0 <= i < j < |times| :: times[i] <= times[j]
  }

  /** The records kept after a list of calls on one key. */
  function Records(p: Params, calls: seq<Call>): seq<Time> {
    if calls == [] then []
    else
      var last := calls[|calls| - 1];
      Step(p, Records(p, calls[..|calls| - 1]), last.now, last.n).0
  }

  /** Every admission since the key was first seen, one time per unit. */
  function History(p: Params, calls: seq<Call>): seq<Time> {
    if calls == [] then []
    else
      var (before, last) := (calls[..|calls| - 1], calls[|calls| - 1]);
      History(p, before)
      + if Step(p, Records(p, before), last.now, last.n).1.allowed then Fill(last.now, last.n) else []
  }

  lemma {:induction false} AfterConcat(s: seq<Time>, t: seq<Time>, cutoff: Time)
    ensures After(s + t, cutoff) == After(s, cutoff) + After(t, cutoff)
  {
    if t == [] {
      assert s + t == s;
    } else {
      assert (s + t)[..|s + t| - 1] == s + t[..|t| - 1];
      AfterConcat(s, t[..|t| - 1], cutoff);
    }
  }

  lemma {:induction false} AfterKeepsAll(t: seq<Time>, cutoff: Time)
    requires forall i | 0 <= i < |t| :: t[i] > cutoff
    ensures After(t, cutoff) == t
  {
    if t != [] {
      AfterKeepsAll(t[..|t| - 1], cutoff);
    }
  }

  lemma AfterFirst(times: seq<Time>, cutoff: Time)
    requires times != [] && times[0] <= cutoff
    ensures After(times, cutoff) == After(times[1..], cutoff)
  {
    assert [times[0]][..0] == [];
    assert After([times[0]], cutoff) == [];
    hide After;
    AfterConcat([times[0]], times[1..], cutoff);
    assert [times[0]] + times[1..] == times;
  }

  /** On sorted times, dropping the expired front is dropping everything expired. */
  lemma {:induction false} PruneIsAfter(p: Params, records: seq<Time>, now: Time)
    requires Sorted(records)
    ensures Prune(p, records, now) == After(records, now - p.window)
  {
    hide After;
    if records != [] && records[0] <= now - p.window {
      AfterFirst(records, now - p.window);
      PruneIsAfter(p, records[1..], now);
    } else {
      AfterKeepsAll(records, now - p.window);
    }
  }

  ghost predicate UpTo(times: seq<Time>, hi: Time) {
    forall i | 0 <= i < |times| :: times[i] <= hi
  }

  lemma {:induction false} AfterSorted(t: seq<Time>, cutoff: Time)
    requires Sorted(t)
    ensures Sorted(After(t, cutoff))
    ensures t != [] ==> UpTo(After(t, cutoff), t[|t| - 1])
  {
    if t != [] {
      AfterSorted(t[..|t| - 1], cutoff);
    }
  }

  lemma {:induction false} AfterAfter(t: seq<Time>, early: Time, late: Time)
    requires early <= late
    ensures After(After(t, early), late) == After(t, late)
  {
    if t != [] {
      var (front, last) := (t[..|t| - 1], t[|t| - 1]);
      AfterAfter(front, early, late);
      var more := if last > early then [last] else [];
      AfterConcat(After(front, early), more, late);
      assert After(more, late) == if last > late then [last] else [];
    }
  }

  lemma {:induction false} CountConcat(s: seq<Time>, t: seq<Time>, lo: Time, hi: Time)
    ensures CountIn(s + t, lo, hi) == CountIn(s, lo, hi) + CountIn(t, lo, hi)
  {
    if t == [] {
      assert s + t == s;
    } else {
      assert (s + t)[..|s + t| - 1] == s + t[..|t| - 1];
      CountConcat(s, t[..|t| - 1], lo, hi);
    }
  }

  lemma {:induction false} CountAtMost(t: seq<Time>, lo: Time, hi: Time, cutoff: Time)
    requires cutoff < lo
    ensures CountIn(t, lo, hi) <= |After(t, cutoff)|
  {
    if t != [] {
      CountAtMost(t[..|t| - 1], lo, hi, cutoff);
    }
  }

  lemma {:induction false} CountFill(now: Time, n: int, lo: Time, hi: Time)
    ensures CountIn(Fill(now, n), lo, hi) == if lo <= now < hi && n > 0 then n else 0
  {
    if n > 0 {
      CountFill(now, n - 1, lo, hi);
    }
  }

  /** No half-open interval as long as the window, or shorter, holds more than `limit` of the times. */
  ghost predicate WithinLimit(p: Params, history: seq<Time>) {
    forall lo, hi | hi - lo <= p.window :: CountIn(history, lo, hi) <= p.limit
  }

  /** One admission keeps every interval within the limit. */
  lemma AdmissionWithinLimit(p: Params, history: seq<Time>, now: Time, n: int)
    requires WithinLimit(p, history) && n <= p.limit - |After(history, now - p.window)|
    ensures WithinLimit(p, history + Fill(now, n))
  {
    hide After, Fill, CountIn;
    forall lo, hi | hi - lo <= p.window
      ensures CountIn(history + Fill(now, n), lo, hi) <= p.limit
    {
      CountConcat(history, Fill(now, n), lo, hi);
      CountFill(now, n, lo, hi);
      if lo <= now < hi {
        CountAtMost(history, lo, hi, now - p.window);
      }
    }
  }

  /** At time `at`, the records are exactly the admissions of the last `window`. */
  ghost predicate Exact(p: Params, history: seq<Time>, records: seq<Time>, at: Time) {
    && Sorted(history) && UpTo(history, at) && WithinLimit(p, history)
    && records == After(history, at - p.window)
    && |records| <= p.limit
  }

  lemma PrunedRecords(p: Params, history: seq<Time>, records: seq<Time>, at: Time, now: Time)
    requires Sorted(history) && records == After(history, at - p.window) && at <= now
    ensures Prune(p, records, now) == After(history, now - p.window)
    ensures |Prune(p, records, now)| <= |records|
  {
    hide After, Prune;
    AfterAfter(history, at - p.window, now - p.window);
    AfterSorted(history, at - p.window);
    PruneIsAfter(p, records, now);
    PruneStops(p, records, now);
  }

  lemma PruneKeepsExact(p: Params, history: seq<Time>, records: seq<Time>, at: Time, now: Time)
    requires Exact(p, history, records, at) && at <= now
    ensures Exact(p, history, Prune(p, records, now), now)
  {
    hide After, Prune, CountIn;
    PrunedRecords(p, history, records, at, now);
    assert UpTo(history, now);
  }

  lemma SortedAppend(history: seq<Time>, now: Time, n: int)
    requires Sorted(history) && UpTo(history, now)
    ensures Sorted(history + Fill(now, n)) && UpTo(history + Fill(now, n), now)
  {
  }

  lemma FilledRecords(p: Params, history: seq<Time>, now: Time, n: int)
    requires p.Valid()
    ensures After(history + Fill(now, n), now - p.window) == After(history, now - p.window) + Fill(now, n)
  {
    hide After, Fill;
    AfterConcat(history, Fill(now, n), now - p.window);
    AfterKeepsAll(Fill(now, n), now - p.window);
  }

  lemma FillKeepsExact(p: Params, history: seq<Time>, kept: seq<Time>, now: Time, n: int)
    requires p.Valid() && Exact(p, history, kept, now) && n <= p.limit - |kept|
    ensures Exact(p, history + Fill(now, n), kept + Fill(now, n), now)
  {
    hide After, Fill, CountIn;
    SortedAppend(history, now, n);
    FilledRecords(p, history, now, n);
    AdmissionWithinLimit(p, history, now, n);
  }

  /** With a clock that never goes back, the records are exactly the admissions of the last `window`, and no half-open
      interval as long as the window ever holds more than `limit` of them. */
  lemma {:induction false} WindowIsExact(p: Params, calls: seq<Call>, from: Time)
    requires p.Valid() && Orderly(calls, from)
    ensures Exact(p, History(p, calls), Records(p, calls), if calls == [] then from else calls[|calls| - 1].now)
  {
    if calls != [] {
      var (before, last) := (calls[..|calls| - 1], calls[|calls| - 1]);
      WindowIsExact(p, before, from);
      var (history, records) := (History(p, before), Records(p, before));
      PruneKeepsExact(p, history, records, if before == [] then from else before[|before| - 1].now, last.now);
      var kept := Prune(p, records, last.now);
      if last.n <= p.limit - |kept| {
        FillKeepsExact(p, history, kept, last.now, last.n);
      } else {
        assert history + [] == history;
      }
    }
  }

  /** In every orderly run, `ResetAfter` of an admission is the wait after which a full batch is admitted again. */
  lemma ResetAfterInRuns(p: Params, calls: seq<Call>, from: Time, now: Time, n: int, d: nat)
    requires p.Valid() && Orderly(calls, from) && n >= 1
    requires now >= if calls == [] then from else calls[|calls| - 1].now
    requires Step(p, Records(p, calls), now, n).1.allowed
    ensures var (next, first) := Step(p, Records(p, calls), now, n);
            Step(p, next, now + d, p.limit).1.allowed <==> d >= first.resetAfter
  {
    hide Step, After;
    var last := if calls == [] then from else calls[|calls| - 1].now;
    WindowIsExact(p, calls, from);
    AfterUpTo(History(p, calls), last - p.window, last);
    ResetAfterIsExact(p, Records(p, calls), now, n, d);
  }

  lemma AfterUpTo(times: seq<Time>, cutoff: Time, hi: Time)
    requires Sorted(times) && UpTo(times, hi)
    ensures UpTo(After(times, cutoff), hi)
  {
    AfterSorted(times, cutoff);
  }
}
