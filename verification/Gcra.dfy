/** `pkg/ratelimit/gcra.go`: the virtual scheduling form of the Generic Cell Rate Algorithm (Annex A of ITU-T
    Recommendation I.371), extended to batches. */
module Gcra {
  import opened Arith
  import opened Clock
  import opened RateLimit

  datatype Params = Params(burst: int, interval: int) {
    predicate Valid() {
      burst >= 1 && interval >= 1
    }

    function Tolerance(): int {
      (burst - 1) * interval
    }
  }

  function New(c: Config): (r: Result<Params>)
    ensures r.Ok? <==> c.rate > 0 && c.window > 0
    ensures r.Ok? ==> r.value.Valid() && Share(r.value.interval, c.window, c.rate)
    ensures r.Ok? ==> r.value.burst == if c.burst > 0 then c.burst else c.rate
  {
    if c.rate <= 0 || c.window <= 0 then InvalidConfig
    else
      ShareOf(c.window, c.rate);
      var burst := if c.burst <= 0 then c.rate else c.burst;
      var interval := c.window / c.rate;
      Ok(Params(burst, if interval <= 0 then 1 else interval))
  }

  /** The theoretical arrival time a request is held against. */
  function Effective(tat: Time, now: Time): Time {
    if tat == ZERO_TIME || tat < now then now else tat
  }

  function Remaining(p: Params, now: Time, tat: Time): int
    requires p.Valid()
  {
    var remaining := (now + p.Tolerance() - tat) / p.interval + 1;
    var atLeast := if remaining > 0 then remaining else 0;
    if atLeast < p.burst then atLeast else p.burst
  }

  /** The state and decision of one `allowN`. */
  function Step(p: Params, tat: Time, now: Time, n: int): (Time, Decision)
    requires p.Valid()
  {
    if n > p.burst then (tat, Decision(false, p.burst, 0, p.interval, p.interval))
    else
      var base := Effective(tat, now);
      var allowedAt := base + (n - 1) * p.interval - p.Tolerance();
      if now < allowedAt then (tat, Decision(false, p.burst, 0, allowedAt - now, allowedAt - now))
      else
        var next := base + n * p.interval;
        (next, Decision(true, p.burst, Remaining(p, now, next), 0, next - now))
  }

  class State {
    var tat: Time

    constructor ()
      ensures tat == ZERO_TIME
    {
      tat := ZERO_TIME;
    }
  }

  method AllowN(p: Params, state: State, now: Time, n: int) returns (d: Decision)
    requires p.Valid()
    modifies state
    ensures (state.tat, d) == Step(p, old(state.tat), now, n)
  {
    if n > p.burst {
      return Decision(false, p.burst, 0, p.interval, p.interval);
    }
    var tat := state.tat;
    if tat == ZERO_TIME || tat < now {
      tat := now;
    }
    var allowedAt := tat + (n - 1) * p.interval - p.Tolerance();
    if now < allowedAt {
      var retryAfter := allowedAt - now;
      return Decision(false, p.burst, 0, retryAfter, retryAfter);
    }
    var increment := n * p.interval;
    state.tat := tat + increment;
    return Decision(true, p.burst, Remaining(p, now, state.tat), 0, state.tat - now);
  }

  function Limiter(p: Params): Algorithm<Time>
    requires p.Valid()
  {
    Algorithm(now => ZERO_TIME, (tat, now, n) => Step(p, tat, now, n))
  }

  // ---- Single decisions ----

  /** The zero instant doubles as "no state yet". It is harmless exactly when the clock has not read earlier than it. */
  lemma EffectiveIsLater(tat: Time, now: Time)
    ensures Effective(tat, now) == (if tat < now then now else tat) <==> !(tat == ZERO_TIME && now < ZERO_TIME)
  {
  }

  /** How far ahead of the clock the schedule may run: a batch fits when it leaves room for `n` intervals. */
  lemma AdmittedIff(p: Params, tat: Time, now: Time, n: int)
    requires p.Valid()
    ensures Step(p, tat, now, n).1.allowed <==>
            n <= p.burst && Effective(tat, now) - now <= (p.burst - n) * p.interval
    ensures Step(p, tat, now, n).0 ==
            if Step(p, tat, now, n).1.allowed then Effective(tat, now) + n * p.interval else tat
  {
    Distribute(p.burst, n, p.interval);
    Distribute(p.burst, 1, p.interval);
    Distribute(n, 1, p.interval);
  }

  /** `Remaining` measures the room left ahead of the schedule in whole intervals. */
  lemma RemainingMeasuresRoom(p: Params, now: Time, tat: Time, m: int)
    requires p.Valid() && m >= 1 && now <= tat <= now + p.burst * p.interval
    ensures 0 <= Remaining(p, now, tat) <= p.burst
    ensures tat - now <= (p.burst - m) * p.interval <==> m <= Remaining(p, now, tat)
  {
    var room := now + p.Tolerance() - tat;
    Distribute(p.burst, 1, p.interval);
    Distribute(p.burst, m, p.interval);
    Distribute(m, 1, p.interval);
    DivOrder(m - 1, room, p.interval);
    DivOrder(-1, room, p.interval);
    DivOrder(p.burst, room, p.interval);
  }

  /** `Remaining` on an admission is the largest batch that would be admitted at the same instant. */
  lemma RemainingIsLargest(p: Params, tat: Time, now: Time, n: int, m: int)
    requires p.Valid() && now >= ZERO_TIME && n >= 1 && m >= 1
    requires Step(p, tat, now, n).1.allowed
    ensures 0 <= Step(p, tat, now, n).1.remaining <= p.burst
    ensures Step(p, Step(p, tat, now, n).0, now, m).1.allowed <==> m <= Step(p, tat, now, n).1.remaining
  {
    var next := Step(p, tat, now, n).0;
    AdmittedIff(p, tat, now, n);
    AdmittedIff(p, next, now, m);
    MulMonotone(1, n, p.interval);
    Distribute(p.burst, n, p.interval);
    RemainingMeasuresRoom(p, now, next, m);
    if m > p.burst {
      MulMonotone(p.burst, m, p.interval);
    }
  }

  /** A denied batch that could ever fit is admitted after waiting `d` exactly when `d` reaches `RetryAfter`. */
  lemma RetryAfterIsExact(p: Params, tat: Time, now: Time, n: int, d: nat)
    requires p.Valid() && now >= ZERO_TIME && 1 <= n <= p.burst
    requires !Step(p, tat, now, n).1.allowed
    ensures Step(p, tat, now, n).1.retryAfter > 0
    ensures Step(p, Step(p, tat, now, n).0, now + d, n).1.allowed <==> d >= Step(p, tat, now, n).1.retryAfter
  {
    AdmittedIff(p, tat, now, n);
    AdmittedIff(p, tat, now + d, n);
    MulMonotone(0, p.burst - n, p.interval);
    Distribute(p.burst, n, p.interval);
    Distribute(p.burst, 1, p.interval);
    Distribute(n, 1, p.interval);
  }

  /** A denial reports nothing left, also where a smaller batch would fit, and the same time twice: the wait for this batch,
      or one interval for a batch above the burst. */
  lemma DenialFields(p: Params, tat: Time, now: Time, n: int)
    requires p.Valid() && now >= ZERO_TIME && n >= 1 && !Step(p, tat, now, n).1.allowed
    ensures var d := Step(p, tat, now, n).1;
            && d.limit == p.burst && d.remaining == 0 && d.resetAfter == d.retryAfter
            && if n > p.burst then d.retryAfter == p.interval
               else Effective(tat, now) - (now + d.retryAfter) == (p.burst - n) * p.interval
  {
    Distribute(p.burst, n, p.interval);
    Distribute(p.burst, 1, p.interval);
    Distribute(n, 1, p.interval);
  }

  /** After an admission, and without other calls, a full batch is admitted after waiting `d` exactly when `d` reaches
      `ResetAfter`. */
  lemma ResetAfterIsExact(p: Params, tat: Time, now: Time, n: int, d: nat)
    requires p.Valid() && now >= ZERO_TIME && n >= 1 && Step(p, tat, now, n).1.allowed
    ensures var (next, first) := Step(p, tat, now, n);
            && (Step(p, next, now + d, p.burst).1.allowed <==> d >= first.resetAfter)
            && first.limit == p.burst && first.retryAfter == 0 && first.resetAfter >= n * p.interval
  {
    var next := Step(p, tat, now, n).0;
    AdmittedIff(p, tat, now, n);
    AdmittedIff(p, next, now + d, p.burst);
    MulMonotone(1, n, p.interval);
  }

  /** A batch above the burst is never admitted, whatever its `RetryAfter` says. */
  lemma OversizedNeverAdmitted(p: Params, tat: Time, now: Time, n: int, later: Time)
    requires p.Valid() && n > p.burst
    ensures !Step(p, Step(p, tat, now, n).0, later, n).1.allowed
  {
  }

  lemma GrowBatch(p: Params, tat: Time, now: Time, k: nat)
    requires p.Valid() && now >= ZERO_TIME && k >= 1
    ensures BatchGrows(Limiter(p), tat, now, k)
  {
    var mid := Step(p, tat, now, k).0;
    AdmittedIff(p, tat, now, k + 1);
    AdmittedIff(p, tat, now, k);
    AdmittedIff(p, mid, now, 1);
    MulMonotone(1, k, p.interval);
    Distribute(k, 1, p.interval);
    Distribute(p.burst, k, p.interval);
    Distribute(p.burst, k + 1, p.interval);
    Distribute(p.burst, 1, p.interval);
    MulOrder(k + 1, p.burst, p.interval);
  }

  lemma BatchEqualsSingles(p: Params, tat: Time, now: Time, n: nat)
    requires p.Valid() && now >= ZERO_TIME && n >= 1
    ensures Admits(Limiter(p), tat, now, n) <==> SinglesAdmitted(Limiter(p), tat, now, n)
    ensures Admits(Limiter(p), tat, now, n) ==> Next(Limiter(p), tat, now, n) == AfterSingles(Limiter(p), tat, now, n)
  {
    forall k: nat | 1 <= k < n
      ensures BatchGrows(Limiter(p), tat, now, k)
    {
      GrowBatch(p, tat, now, k);
    }
    BatchLaw(Limiter(p), tat, now, n);
  }

  // ---- Runs ----

  /** The state after a list of calls on one key. */
  function After(p: Params, tat: Time, calls: seq<Call>): Time
    requires p.Valid()
  {
    if calls == [] then tat
    else
      var last := calls[|calls| - 1];
      Step(p, After(p, tat, calls[..|calls| - 1]), last.now, last.n).0
  }

  /** The units a list of calls is granted. */
  function AdmittedUnits(p: Params, tat: Time, calls: seq<Call>): int
    requires p.Valid()
  {
    if calls == [] then 0
    else
      var (before, last) := (calls[..|calls| - 1], calls[|calls| - 1]);
      AdmittedUnits(p, tat, before) + if Step(p, After(p, tat, before), last.now, last.n).1.allowed then last.n else 0
  }

  ghost predicate Requests(calls: seq<Call>) {
    forall i | 0 <= i < |calls| :: calls[i].n >= 1 && calls[i].now >= ZERO_TIME
  }

  /** Every admitted unit pushes the schedule at least one interval further from where it stood. */
  lemma {:induction false} ScheduleAdvances(p: Params, tat: Time, calls: seq<Call>)
    requires p.Valid() && Requests(calls) && tat > ZERO_TIME
    ensures After(p, tat, calls) >= tat + AdmittedUnits(p, tat, calls) * p.interval
    ensures After(p, tat, calls) > ZERO_TIME
  {
    if calls != [] {
      var (before, last) := (calls[..|calls| - 1], calls[|calls| - 1]);
      ScheduleAdvances(p, tat, before);
      AdmittedIff(p, After(p, tat, before), last.now, last.n);
      Distribute(AdmittedUnits(p, tat, before), last.n, p.interval);
      MulMonotone(0, last.n, p.interval);
    }
  }

  /** The rate bound: from one admission to another, at most the elapsed time plus one full burst is admitted. The clock
      may jump back and forth in between; it need only not read before the zero instant. */
  lemma RateBound(p: Params, tat: Time, first: Call, between: seq<Call>, last: Call)
    requires p.Valid() && Requests([first, last]) && Requests(between)
    requires Step(p, tat, first.now, first.n).1.allowed
    requires Step(p, After(p, Step(p, tat, first.now, first.n).0, between), last.now, last.n).1.allowed
    ensures (first.n + AdmittedUnits(p, Step(p, tat, first.now, first.n).0, between) + last.n) * p.interval
            <= (last.now - first.now) + p.burst * p.interval
  {
    assert [first, last][0] == first && [first, last][1] == last;
    var start := Step(p, tat, first.now, first.n).0;
    var units := AdmittedUnits(p, start, between);
    AdmittedIff(p, tat, first.now, first.n);
    MulMonotone(1, first.n, p.interval);
    ScheduleAdvances(p, start, between);
    AdmittedIff(p, After(p, start, between), last.now, last.n);
    Distribute(p.burst, last.n, p.interval);
    Distribute(first.n, units, p.interval);
    Distribute(first.n + units, last.n, p.interval);
  }

  /** Before the zero instant the bound fails: with one request a nanosecond and no burst, a first request one nanosecond
      early leaves the schedule at the zero instant, which the next request takes for a fresh key. */
  lemma ZeroInstantForgets()
    ensures var p := Params(1, 1);
            var now := ZERO_TIME - 1;
            var (tat, d) := Step(p, ZERO_TIME, now, 1);
            d.allowed && tat == ZERO_TIME && Step(p, tat, now, 1).1.allowed
  {
  }
}
