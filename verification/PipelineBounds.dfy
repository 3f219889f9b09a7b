/** Sequential gates are the one-client case of the window protocol, which bounds what the pipeline admits. */
module PipelineBounds {
  import opened Wrappers
  import opened SlidingWindow
  import opened WindowProtocol
  import opened WindowExactness
  import opened Redis
  import opened Limits
  import opened Governance
  import opened Pipeline

  function OneClient(window: nat, limit: nat, ttl: Seconds): Params {
    Params(limit, window, Some(ttl), 1)
  }

  /** The protocol state that a series of attempts leaves behind. */
  ghost predicate Mirrors(s: State, series: Series) {
    && s.phases == [Idle]
    && s.admitted == series.admitted
    && s.scores == Live(series.w, s.clock)
    && (series.w.scores != [] ==> series.w.deadline == Some(s.deadline))
  }

  /** Time passing expires the key in the protocol exactly when the set stops being live. */
  lemma MirrorsWait(p: Params, s0: State, es: Schedule, series: Series, d: nat)
    requires p.expiry.Some? && Mirrors(Run(p, s0, es), series) && PromptRun(p, s0, es)
    ensures Mirrors(Run(p, s0, Ticks(es, d)), series) && PromptRun(p, s0, Ticks(es, d))
    ensures Run(p, s0, Ticks(es, d)).clock == Run(p, s0, es).clock + d
  {
    TicksRun(p, s0, es, d);
  }

  lemma MirrorsRound(p: Params, s0: State, es: Schedule, series: Series)
    requires p.expiry.Some? && Mirrors(Run(p, s0, es), series) && PromptRun(p, s0, es)
    ensures var now := Run(p, s0, es).clock;
            var (w, ok) := Attempt(series.w, now, p.window, p.limit, p.expiry.value);
            && Run(p, s0, Round(es, 0)).clock == now && PromptRun(p, s0, Round(es, 0))
            && Mirrors(Run(p, s0, Round(es, 0)), Series(w, if ok then series.admitted + [now] else series.admitted))
  {
    var s := Run(p, s0, es);
    RoundUnfolds(p, s0, es, 0);
    RoundIsAttempt(p, s, 0, series.w);
    TrimmedIsLive(series.w, s.clock, WindowStart(s.clock, p.window));
  }

  lemma MirrorsBegin(p: Params, window: nat, limit: nat, ttl: nat)
    requires p.clients == 1
    ensures Mirrors(Run(p, Init(p, 1), Begin), AttemptAll([], window, limit, ttl)) && PromptRun(p, Init(p, 1), Begin)
    ensures Run(p, Init(p, 1), Begin).clock == 1
  {
  }

  lemma {:induction false} SeriesIsRun(times: seq<nat>, window: nat, limit: nat, ttl: Seconds) returns (es: Schedule)
    requires Ascending(times)
    ensures var p := OneClient(window, limit, ttl);
            && PromptRun(p, Init(p, 1), es)
            && Mirrors(Run(p, Init(p, 1), es), AttemptAll(times, window, limit, ttl))
            && Run(p, Init(p, 1), es).clock == if times == [] then 1 else times[|times| - 1]
  {
    hide AttemptAll, Attempt, Run, PromptRun, Round, Ticks, Mirrors;
    var p := OneClient(window, limit, ttl);
    if times == [] {
      es := Begin;
      MirrorsBegin(p, window, limit, ttl);
    } else {
      var init, last := times[..|times| - 1], times[|times| - 1];
      es := SeriesIsRun(init, window, limit, ttl);
      var series := AttemptAll(init, window, limit, ttl);
      var d := last - Run(p, Init(p, 1), es).clock;
      MirrorsWait(p, Init(p, 1), es, series, d);
      MirrorsRound(p, Init(p, 1), Ticks(es, d), series);
      AttemptAllStep(init, last, window, limit, ttl);
      assert times == init + [last];
      assert series.admitted + [] == series.admitted;
      es := Round(Ticks(es, d), 0);
    }
  }

  /** Attempts one after the other admit at most `limit` times in any span of the window. */
  lemma SeriesBound(times: seq<nat>, window: nat, limit: nat, ttl: Seconds, from: int)
    requires Ascending(times) && ttl >= window
    ensures SpanCount(AttemptAll(times, window, limit, ttl).admitted, from, window) <= limit
  {
    var p := OneClient(window, limit, ttl);
    var es := SeriesIsRun(times, window, limit, ttl);
    PromptScheduleBound(p, 1);
    assert SpanCount(Admissions(p, 1, es), from, p.window) <= limit;
  }

  /** Passing more gates is harder. */
  lemma {:induction false} FewerPass(qs: seq<Request>, verdicts: seq<Option<Gate>>, k: WindowKey,
                                     gates: nat, more: nat, from: int, window: nat)
    requires |qs| == |verdicts| && gates <= more
    ensures SpanCount(TimesOn(qs, verdicts, k, more), from, window)
         <= SpanCount(TimesOn(qs, verdicts, k, gates), from, window)
  {
    if qs == [] {
    } else {
      var n := |qs| - 1;
      FewerPass(qs[..n], verdicts[..n], k, gates, more, from, window);
      SpanCountAppend(TimesOn(qs[..n], verdicts[..n], k, gates), TimeAt(k, qs[n]), from, window);
      SpanCountAppend(TimesOn(qs[..n], verdicts[..n], k, more), TimeAt(k, qs[n]), from, window);
    }
  }

  lemma WindowBound(limits: string -> KeyLimitConfig, qs: seq<Request>, k: WindowKey, from: int)
    requires WellTimed(qs)
    requires k.RpdKey? ==> limits(k.apiKey).requestsPerDay != 100
    ensures SpanCount(TimesIn(limits, qs, k, 6), from, WindowOf(k)) <= LimitOn(k, limits(k.apiKey))
  {
    var config := limits(k.apiKey);
    WindowIsSeries(limits, qs, k);
    TimesAscend(qs, RunAll(limits, qs).verdicts, k, StageOf(k));
    SeriesBound(TimesIn(limits, qs, k, StageOf(k)), WindowOf(k), LimitOn(k, config), TtlOf(k, config), from);
    FewerPass(qs, RunAll(limits, qs).verdicts, k, StageOf(k) + 1, 6, from, WindowOf(k));
  }

  /** In every sequential run the requests that pass the whole pipeline number, in any span, at most 100 per key
      and model in 60 seconds, at most the key's minute limit in 60 seconds, and at most its day limit in
      86400 seconds unless that limit is 100. */
  lemma PipelineAdmission(limits: string -> KeyLimitConfig, qs: seq<Request>, apiKey: string, model: string, from: int)
    requires WellTimed(qs)
    ensures SpanCount(TimesIn(limits, qs, RateKey(apiKey, model), 6), from, 60) <= 100
    ensures SpanCount(TimesIn(limits, qs, RpmKey(apiKey), 6), from, 60) <= limits(apiKey).requestsPerMinute
    ensures limits(apiKey).requestsPerDay != 100 ==>
              SpanCount(TimesIn(limits, qs, RpdKey(apiKey), 6), from, 86400) <= limits(apiKey).requestsPerDay
  {
    WindowBound(limits, qs, RateKey(apiKey, model), from);
    WindowBound(limits, qs, RpmKey(apiKey), from);
    if limits(apiKey).requestsPerDay != 100 { WindowBound(limits, qs, RpdKey(apiKey), from); }
  }

  /** The limits of a key row as enforced: a limit that is set and not negative is respected, a missing one is
      the default, and with enforcement off everybody gets the defaults. */
  lemma EnforcedLimits(enforce: bool, keys: string -> ApiKey, qs: seq<Request>, apiKey: string, from: int)
    requires WellTimed(qs)
    ensures var limits := (k: string) => LimitsOf(enforce, keys(k));
            var key := keys(apiKey);
            var minute := if enforce then key.requestsPerMinute else None;
            var day := if enforce then key.requestsPerDay else None;
            && (minute.Some? && minute.value >= 0 ==>
                  SpanCount(TimesIn(limits, qs, RpmKey(apiKey), 6), from, 60) <= minute.value)
            && (minute.None? ==> SpanCount(TimesIn(limits, qs, RpmKey(apiKey), 6), from, 60) <= 100)
            && (day.Some? && day.value >= 0 && day.value != 100 ==>
                  SpanCount(TimesIn(limits, qs, RpdKey(apiKey), 6), from, 86400) <= day.value)
            && (day.None? ==> SpanCount(TimesIn(limits, qs, RpdKey(apiKey), 6), from, 86400) <= 10000)
  {
    var limits := (k: string) => LimitsOf(enforce, keys(k));
    PipelineAdmission(limits, qs, apiKey, "", from);
  }

  // ----- Nobody is rejected early -----

  lemma {:induction false} PruneFewer(scores: seq<nat>, limit: nat, from: int, window: nat)
    ensures SpanCount(Prune(scores, limit), from, window) <= SpanCount(scores, from, window)
  {
    if scores == [] {
    } else {
      var init, last := scores[..|scores| - 1], scores[|scores| - 1];
      PruneFewer(init, limit, from, window);
      if last > limit { SpanCountAppend(Prune(init, limit), last, from, window); }
    }
  }

  /** A window never holds more than was admitted. */
  lemma {:induction false} HoldsAdmitted(times: seq<nat>, window: nat, limit: nat, ttl: nat, from: int, length: nat)
    ensures var series := AttemptAll(times, window, limit, ttl);
            SpanCount(series.w.scores, from, length) <= SpanCount(series.admitted, from, length)
  {
    if times == [] {
    } else {
      var before, now := AttemptAll(times[..|times| - 1], window, limit, ttl), times[|times| - 1];
      HoldsAdmitted(times[..|times| - 1], window, limit, ttl, from, length);
      var kept := Prune(Live(before.w, now), WindowStart(now, window));
      PruneFewer(before.w.scores, WindowStart(now, window), from, length);
      SpanCountAppend(kept, now, from, length);
      SpanCountAppend(before.admitted, now, from, length);
    }
  }

  lemma {:induction false} HoldsAttempted(times: seq<nat>, window: nat, limit: nat, ttl: nat, x: nat)
    requires x in AttemptAll(times, window, limit, ttl).w.scores
    ensures x in times
  {
    if times == [] {
    } else {
      var before, now := AttemptAll(times[..|times| - 1], window, limit, ttl), times[|times| - 1];
      PruneKeeps(Live(before.w, now), WindowStart(now, window));
      if x in before.w.scores { HoldsAttempted(times[..|times| - 1], window, limit, ttl, x); }
    }
  }

  lemma {:induction false} AscendUpTo(times: seq<nat>, x: nat)
    requires Ascending(times) && x in times
    ensures x <= times[|times| - 1]
  {
    var n := |times| - 1;
    if x != times[n] {
      assert times == times[..n] + [times[n]];
      AscendUpTo(times[..n], x);
    }
  }

  /** A full window was filled by admissions within its own length before the attempt. */
  lemma FullIsEarned(times: seq<nat>, window: nat, limit: nat, ttl: nat, now: nat)
    requires Ascending(times) && (times != [] ==> times[|times| - 1] <= now)
    ensures var series := AttemptAll(times, window, limit, ttl);
            |Trimmed(series.w, now, WindowStart(now, window)).scores|
            <= SpanCount(series.admitted, now - window, window)
  {
    var series := AttemptAll(times, window, limit, ttl);
    var start := WindowStart(now, window);
    var kept := Prune(Live(series.w, now), start);
    HoldsAdmitted(times, window, limit, ttl, now - window, window);
    PruneFewer(series.w.scores, start, now - window, window);
    PruneKeeps(Live(series.w, now), start);
    forall i | 0 <= i < |kept| ensures now - window < kept[i] <= now {
      assert kept[i] in Live(series.w, now);
      HoldsAttempted(times, window, limit, ttl, kept[i]);
      AscendUpTo(times, kept[i]);
    }
    AllInSpan(kept, now - window, window);
  }

  /** The times of the requests before `q` are no later than its own. */
  lemma TimesUpTo(limits: string -> KeyLimitConfig, qs: seq<Request>, k: WindowKey, q: Request)
    requires WellTimed(qs) && WellTimed(qs + [q])
    ensures var times := TimesIn(limits, qs, k, StageOf(k));
            Ascending(times) && (times != [] ==> times[|times| - 1] <= TimeAt(k, q))
  {
    TimesAscend(qs, RunAll(limits, qs).verdicts, k, StageOf(k));
    if qs != [] {
      assert (qs + [q])[|qs| - 1] == qs[|qs| - 1] && (qs + [q])[|qs|] == q;
    }
  }

  /** A window gate rejects a request only after it has let at least as many others through as its limit, all of them
      within the window before the request. */
  lemma {:induction false} RejectionIsEarned(limits: string -> KeyLimitConfig, qs: seq<Request>, q: Request,
                                             k: WindowKey)
    requires WellTimed(qs + [q]) && Concerns(k, q)
    requires Passed(Execute(RunAll(limits, qs).windows, limits(q.apiKey), q).1) == StageOf(k)
    ensures SpanCount(TimesIn(limits, qs, k, StageOf(k) + 1), TimeAt(k, q) - WindowOf(k), WindowOf(k))
         >= LimitOn(k, limits(q.apiKey))
  {
    hide Trimmed, SpanCount, AttemptAll, Execute, RunAll, TimesIn, TimesOn;
    var before, config := RunAll(limits, qs), limits(q.apiKey);
    assert (qs + [q])[..|qs|] == qs && (qs + [q])[|qs|] == q;
    assert WellTimed(qs) by { assert forall i :: 0 <= i < |qs| ==> (qs + [q])[i] == qs[i]; }
    var times := TimesIn(limits, qs, k, StageOf(k));
    TimesUpTo(limits, qs, k, q);
    WindowIsSeries(limits, qs, k);
    ChargedExactly(before.windows, config, q, k);
    FullIsEarned(times, WindowOf(k), LimitOn(k, config), TtlOf(k, config), TimeAt(k, q));
  }

  /** The same for the limits of a key row: what is set counts (a negative limit as a huge one), what is missing is 100
      a minute and 10000 a day, as it is with enforcement off; and the rate gate lets 100 a minute through. */
  lemma RejectedByRow(enforce: bool, keys: string -> ApiKey, qs: seq<Request>, q: Request)
    requires WellTimed(qs + [q])
    ensures var limits := (k: string) => LimitsOf(enforce, keys(k));
            var key, verdict := keys(q.apiKey), Execute(RunAll(limits, qs).windows, limits(q.apiKey), q).1;
            var minute := if enforce then key.requestsPerMinute else None;
            var day := if enforce then key.requestsPerDay else None;
            && (verdict == Some(RateGate) ==>
                  SpanCount(TimesIn(limits, qs, RateKey(q.apiKey, q.model), 1), q.rateTime - 60, 60) >= 100)
            && (verdict == Some(MinuteGate) ==>
                  SpanCount(TimesIn(limits, qs, RpmKey(q.apiKey), 2), q.limitsTime - 60, 60)
                  >= (match minute
                      case None => 100
                      case Some(v) => (var n: int := v; if n >= 0 then n else n + 0x1_0000_0000_0000_0000)))
            && (verdict == Some(DayGate) ==>
                  SpanCount(TimesIn(limits, qs, RpdKey(q.apiKey), 3), q.limitsTime - 86400, 86400)
                  >= match day
                     case None => 10000
                     case Some(v) => (var n: int := v; if n >= 0 then n else n + 0x1_0000_0000_0000_0000))
  {
    hide Execute, RunAll, TimesIn, SpanCount, WellTimed;
    var limits := (k: string) => LimitsOf(enforce, keys(k));
    var verdict := Execute(RunAll(limits, qs).windows, limits(q.apiKey), q).1;
    if verdict == Some(RateGate) {
      RejectionIsEarned(limits, qs, q, RateKey(q.apiKey, q.model));
    } else if verdict == Some(MinuteGate) {
      RejectionIsEarned(limits, qs, q, RpmKey(q.apiKey));
    } else if verdict == Some(DayGate) {
      RejectionIsEarned(limits, qs, q, RpdKey(q.apiKey));
    }
  }

  /** The gates after the windows, for a request that gets as far: the budget gate stops it exactly if the spend it
      reads has reached the key's budget (100 with enforcement off), the allowlist gate exactly if the key lists models
      but not this one, and governance exactly if the row is missing or inactive, or it has not expired and lists other
      models or has a budget that is zero or used up. */
  lemma LaterGatesByRow(enforce: bool, key: ApiKey, windows: map<WindowKey, Window>, q: Request)
    ensures var verdict := Execute(windows, LimitsOf(enforce, key), q).1;
            var budget := if enforce then key.maxSpend else Some(100.0);
            var listed := if enforce then key.allowedModels else None;
            && (Passed(verdict) >= 3 ==>
                  (verdict == Some(BudgetGate) <==> budget.Some? && q.limitsSpend >= budget.value))
            && (Passed(verdict) >= 4 ==>
                  (verdict == Some(AllowlistGate) <==> listed.Some? && listed.value != [] && q.model !in listed.value))
            && (Passed(verdict) >= 5 ==>
                  (verdict == Some(GovernanceGate) <==>
                   match q.row
                   case None => true
                   case Some(row) =>
                     || !row.isActive
                     || ((row.expiresAt.None? || row.expiresAt.value >= q.utc)
                         && ((row.allowedModels.Some? && row.allowedModels.value != []
                              && q.model !in row.allowedModels.value)
                             || (row.maxSpend.Some? && (row.maxSpend.value == 0.0
                                 || (row.maxSpend.value > 0.0 && q.governanceSpend >= row.maxSpend.value)
                                 || (row.maxSpend.value < 0.0 && q.governanceSpend <= row.maxSpend.value)))))))
  {
    hide Execute;
    StopsAtFirstFailure(windows, LimitsOf(enforce, key), q);
    var verdict := Execute(windows, LimitsOf(enforce, key), q).1;
    assert Passed(verdict) > 3 ==> !Fails(windows, LimitsOf(enforce, key), q, BudgetGate);
    assert Passed(verdict) > 4 ==> !Fails(windows, LimitsOf(enforce, key), q, AllowlistGate);
    assert Passed(verdict) > 5 ==> !Fails(windows, LimitsOf(enforce, key), q, GovernanceGate);
    if q.row.Some? && q.row.value.maxSpend.Some? && q.row.value.maxSpend.value != 0.0 {
      RatioAgainstOne(q.governanceSpend, q.row.value.maxSpend.value);
    }
  }

  // ----- When the day limit holds -----

  /** Recorded spend is never negative. */
  predicate PlausibleReadings(qs: seq<Request>) {
    forall i :: 0 <= i < |qs| ==> qs[i].limitsSpend >= 0.0 && qs[i].governanceSpend >= 0.0
  }

  ghost predicate DayBounded(limits: string -> KeyLimitConfig, apiKey: string) {
    forall qs: seq<Request>, from: int ::
      WellTimed(qs) && PlausibleReadings(qs) ==>
        SpanCount(TimesIn(limits, qs, RpdKey(apiKey), 6), from, 86400) <= limits(apiKey).requestsPerDay
  }

  /** Nobody passes a minute limit of 0 or a budget that is not positive. */
  predicate Closed(config: KeyLimitConfig) {
    config.requestsPerMinute == 0 || (config.maxSpend.Some? && config.maxSpend.value <= 0.0)
  }

  lemma ClosedStops(windows: map<WindowKey, Window>, config: KeyLimitConfig, q: Request)
    requires Closed(config) && q.limitsSpend >= 0.0
    ensures Passed(Execute(windows, config, q).1) < 6
  {
    StopsAtFirstFailure(windows, config, q);
    assert Fails(windows, config, q, if config.requestsPerMinute == 0 then MinuteGate else BudgetGate);
  }

  lemma NothingMore(limits: string -> KeyLimitConfig, qs: seq<Request>, q: Request, apiKey: string)
    requires Closed(limits(apiKey)) && q.limitsSpend >= 0.0
    ensures TimesIn(limits, qs + [q], RpdKey(apiKey), 6) == TimesIn(limits, qs, RpdKey(apiKey), 6)
  {
    var before := RunAll(limits, qs);
    if q.apiKey == apiKey { ClosedStops(before.windows, limits(q.apiKey), q); }
    RunStep(limits, qs, q);
    TimesStep(qs, before.verdicts, q, Execute(before.windows, limits(q.apiKey), q).1, RpdKey(apiKey), 6);
  }

  lemma NothingYet(limits: string -> KeyLimitConfig, k: WindowKey, gates: nat)
    ensures TimesIn(limits, [], k, gates) == []
  {
  }

  lemma {:induction false} NothingPasses(limits: string -> KeyLimitConfig, qs: seq<Request>, apiKey: string)
    requires Closed(limits(apiKey)) && PlausibleReadings(qs)
    ensures TimesIn(limits, qs, RpdKey(apiKey), 6) == []
  {
    hide TimesIn;
    if qs == [] {
      NothingYet(limits, RpdKey(apiKey), 6);
    } else {
      NothingPasses(limits, qs[..|qs| - 1], apiKey);
      NothingMore(limits, qs[..|qs| - 1], qs[|qs| - 1], apiKey);
      assert qs == qs[..|qs| - 1] + [qs[|qs| - 1]];
    }
  }

  /** Requests two minutes apart. */
  function At(i: nat): nat {
    1 + 120 * i
  }

  function Stamps(n: nat): (times: seq<nat>)
    ensures |times| == n && forall i :: 0 <= i < n ==> times[i] == At(i)
  {
    if n == 0 then [] else Stamps(n - 1) + [At(n - 1)]
  }

  /** The row of an active key with these limits. */
  predicate OwnRow(config: KeyLimitConfig, row: KeyRow) {
    && row.isActive && row.expiresAt.None? && row.maxSpend == config.maxSpend
    && config.allowedModels == if row.allowedModels.Some? then row.allowedModels.value else []
  }

  /** A request of a key that has not spent anything, for a model that it may use. */
  function Plain(apiKey: string, config: KeyLimitConfig, row: KeyRow, t: nat): Request {
    Request(apiKey, if config.allowedModels == [] then "" else config.allowedModels[0], t, t, 0, 0.0, 0.0, Some(row))
  }

  function Spaced(apiKey: string, config: KeyLimitConfig, row: KeyRow, n: nat): (qs: seq<Request>)
    ensures |qs| == n && forall i :: 0 <= i < n ==> qs[i] == Plain(apiKey, config, row, At(i))
  {
    if n == 0 then [] else Spaced(apiKey, config, row, n - 1) + [Plain(apiKey, config, row, At(n - 1))]
  }

  lemma SpacedInTime(apiKey: string, config: KeyLimitConfig, row: KeyRow, n: nat)
    ensures WellTimed(Spaced(apiKey, config, row, n))
  {
  }

  /** A set that holds the last of `n` such requests. */
  function Single(n: nat, ttl: nat): Window {
    if n == 0 then EMPTY_WINDOW else Window([At(n - 1)], Some(At(n - 1) + ttl))
  }

  /** The next one finds it expired or can prune it. */
  lemma SingleStep(n: nat, window: nat, limit: nat, ttl: nat)
    requires limit >= 1 && (window <= 120 || ttl <= 120)
    ensures Attempt(Single(n, ttl), At(n), window, limit, ttl) == (Single(n + 1, ttl), true)
  {
    if n > 0 && ttl > 120 { PruneAll([At(n - 1)], WindowStart(At(n), window)); }
    assert [] + [At(n)] == [At(n)];
  }

  ghost predicate AllSingle(windows: map<WindowKey, Window>, config: KeyLimitConfig, q: Request, n: nat) {
    forall k :: Concerns(k, q) ==> Lookup(windows, k) == Single(n, TtlOf(k, config))
  }

  /** A day limit of 100, a minute limit that is not 0 and a budget that is positive. */
  predicate Leaky(config: KeyLimitConfig) {
    config.requestsPerDay == 100 && !Closed(config)
  }

  lemma NoneFails(windows: map<WindowKey, Window>, config: KeyLimitConfig, row: KeyRow, q: Request)
    requires Leaky(config) && OwnRow(config, row) && q == Plain(q.apiKey, config, row, q.limitsTime)
    requires forall k :: Concerns(k, q) ==>
               Attempt(Lookup(windows, k), TimeAt(k, q), WindowOf(k), LimitOn(k, config), TtlOf(k, config)).1
    ensures forall gate :: !Fails(windows, config, q, gate)
  {
    assert Concerns(RateKey(q.apiKey, q.model), q) && Concerns(RpmKey(q.apiKey), q) && Concerns(RpdKey(q.apiKey), q);
    if row.maxSpend.Some? { RatioAgainstOne(0.0, row.maxSpend.value); }
  }

  lemma SpacedStep(windows: map<WindowKey, Window>, config: KeyLimitConfig, row: KeyRow, q: Request, n: nat)
    requires Leaky(config) && OwnRow(config, row)
    requires q == Plain(q.apiKey, config, row, At(n)) && AllSingle(windows, config, q, n)
    ensures var (windows', verdict) := Execute(windows, config, q);
            verdict == None && AllSingle(windows', config, q, n + 1)
  {
    forall k | Concerns(k, q)
      ensures Attempt(Lookup(windows, k), TimeAt(k, q), WindowOf(k), LimitOn(k, config), TtlOf(k, config))
           == (Single(n + 1, TtlOf(k, config)), true)
    {
      SingleStep(n, WindowOf(k), LimitOn(k, config), TtlOf(k, config));
    }
    NoneFails(windows, config, row, q);
    StopsAtFirstFailure(windows, config, q);
    var windows' := Execute(windows, config, q).0;
    forall k | Concerns(k, q) ensures Lookup(windows', k) == Single(n + 1, TtlOf(k, config)) {
      SeriesStep(windows, config, q, k);
    }
  }

  lemma SpacedNext(limits: string -> KeyLimitConfig, row: KeyRow, qs: seq<Request>, q: Request, n: nat)
    requires Leaky(limits(q.apiKey)) && OwnRow(limits(q.apiKey), row)
    requires q == Plain(q.apiKey, limits(q.apiKey), row, At(n))
    requires AllSingle(RunAll(limits, qs).windows, limits(q.apiKey), q, n)
    ensures AllSingle(RunAll(limits, qs + [q]).windows, limits(q.apiKey), q, n + 1)
    ensures TimesIn(limits, qs + [q], RpdKey(q.apiKey), 6) == TimesIn(limits, qs, RpdKey(q.apiKey), 6) + [At(n)]
  {
    hide RunAll, Execute, AllSingle, Leaky, OwnRow, TimesOn;
    var before := RunAll(limits, qs);
    SpacedStep(before.windows, limits(q.apiKey), row, q, n);
    RunStep(limits, qs, q);
    TimesStep(qs, before.verdicts, q, None, RpdKey(q.apiKey), 6);
  }

  /** All of them pass, and the windows hold the last one only. */
  ghost predicate AllPass(limits: string -> KeyLimitConfig, row: KeyRow, apiKey: string, n: nat) {
    var qs := Spaced(apiKey, limits(apiKey), row, n);
    && AllSingle(RunAll(limits, qs).windows, limits(apiKey), Plain(apiKey, limits(apiKey), row, At(n)), n)
    && TimesIn(limits, qs, RpdKey(apiKey), 6) == Stamps(n)
  }

  lemma AllPassTimes(limits: string -> KeyLimitConfig, row: KeyRow, apiKey: string, n: nat)
    requires AllPass(limits, row, apiKey, n)
    ensures TimesIn(limits, Spaced(apiKey, limits(apiKey), row, n), RpdKey(apiKey), 6) == Stamps(n)
  {
  }

  lemma AllPassStart(limits: string -> KeyLimitConfig, row: KeyRow, apiKey: string)
    ensures AllPass(limits, row, apiKey, 0)
  {
  }

  /** Being concerned with a window does not depend on the time. */
  lemma SameWindows(windows: map<WindowKey, Window>, config: KeyLimitConfig, q: Request, q': Request, n: nat)
    requires q'.apiKey == q.apiKey && q'.model == q.model && AllSingle(windows, config, q, n)
    ensures AllSingle(windows, config, q', n)
  {
    forall k | Concerns(k, q') ensures Lookup(windows, k) == Single(n, TtlOf(k, config)) {
      assert Concerns(k, q);
    }
  }

  lemma AllPassNext(limits: string -> KeyLimitConfig, row: KeyRow, apiKey: string, n: nat)
    requires Leaky(limits(apiKey)) && OwnRow(limits(apiKey), row) && AllPass(limits, row, apiKey, n)
    ensures AllPass(limits, row, apiKey, n + 1)
  {
    hide AllSingle, RunAll, TimesIn, OwnRow, Leaky;
    var config := limits(apiKey);
    var qs, q := Spaced(apiKey, config, row, n), Plain(apiKey, config, row, At(n));
    assert Spaced(apiKey, config, row, n + 1) == qs + [q];
    SpacedNext(limits, row, qs, q, n);
    SameWindows(RunAll(limits, qs + [q]).windows, config, q, Plain(apiKey, config, row, At(n + 1)), n + 1);
  }

  lemma {:induction false} SpacedRun(limits: string -> KeyLimitConfig, row: KeyRow, apiKey: string, n: nat)
    requires Leaky(limits(apiKey)) && OwnRow(limits(apiKey), row)
    ensures AllPass(limits, row, apiKey, n)
  {
    hide AllPass;
    if n == 0 {
      AllPassStart(limits, row, apiKey);
    } else {
      SpacedRun(limits, row, apiKey, n - 1);
      AllPassNext(limits, row, apiKey, n - 1);
    }
  }

  /** A limit of 100 gets the short expiry, and each two idle minutes forget the day: one request more than the limit
      passes within a day, although nothing was spent and every request reads the key's own row. */
  lemma DayLeak(limits: string -> KeyLimitConfig, row: KeyRow, apiKey: string) returns (qs: seq<Request>)
    requires Leaky(limits(apiKey)) && OwnRow(limits(apiKey), row)
    ensures WellTimed(qs) && forall i :: 0 <= i < |qs| ==>
              qs[i].apiKey == apiKey && qs[i].limitsSpend == qs[i].governanceSpend == 0.0 && qs[i].row == Some(row)
    ensures SpanCount(TimesIn(limits, qs, RpdKey(apiKey), 6), 0, 86400) == limits(apiKey).requestsPerDay + 1
  {
    var n := limits(apiKey).requestsPerDay + 1;
    qs := Spaced(apiKey, limits(apiKey), row, n);
    SpacedRun(limits, row, apiKey, n);
    AllPassTimes(limits, row, apiKey, n);
    SpacedInTime(apiKey, limits(apiKey), row, n);
    hide AllPass, TimesIn, SpanCount, Leaky, OwnRow, WellTimed;
    AllInSpan(Stamps(n), 0, 86400);
  }

  lemma NoneInEmpty(from: int, length: nat)
    ensures SpanCount([], from, length) == 0
  {
  }

  /** While recorded spend is not negative, the requests that pass the whole pipeline respect the day limit in every
      run if and only if that limit is not 100, or nothing passes at all: the minute limit is 0, or the budget is not
      positive. */
  lemma DayBoundIff(limits: string -> KeyLimitConfig, apiKey: string)
    ensures var config := limits(apiKey);
            DayBounded(limits, apiKey)
            <==> || config.requestsPerDay != 100 || config.requestsPerMinute == 0
                 || (config.maxSpend.Some? && config.maxSpend.value <= 0.0)
  {
    var config := limits(apiKey);
    hide TimesIn, SpanCount, WellTimed;
    if config.requestsPerDay != 100 {
      forall qs: seq<Request>, from: int | WellTimed(qs)
        ensures SpanCount(TimesIn(limits, qs, RpdKey(apiKey), 6), from, 86400) <= config.requestsPerDay
      {
        WindowBound(limits, qs, RpdKey(apiKey), from);
      }
    } else if Closed(config) {
      forall qs: seq<Request>, from: int | PlausibleReadings(qs)
        ensures SpanCount(TimesIn(limits, qs, RpdKey(apiKey), 6), from, 86400) == 0
      {
        NothingPasses(limits, qs, apiKey);
        NoneInEmpty(from, 86400);
      }
    } else {
      var row := KeyRow(true, None, Some(config.allowedModels), config.maxSpend);
      var qs := DayLeak(limits, row, apiKey);
    }
  }

  /** The requests of a run read rows that hold the limits their keys were authenticated with. */
  predicate OwnRows(keys: string -> ApiKey, qs: seq<Request>) {
    forall i :: 0 <= i < |qs| && qs[i].row.Some? ==> SameLimits(keys(qs[i].apiKey), qs[i].row.value)
  }

  ghost predicate KeyDayBounded(enforce: bool, keys: string -> ApiKey, apiKey: string) {
    var limits := (k: string) => LimitsOf(enforce, keys(k));
    forall qs: seq<Request>, from: int ::
      WellTimed(qs) && PlausibleReadings(qs) && OwnRows(keys, qs) ==>
        SpanCount(TimesIn(limits, qs, RpdKey(apiKey), 6), from, 86400) <= limits(apiKey).requestsPerDay
  }

  /** The same in terms of the key: its day limit as enforced fails exactly if enforcement is on, the limit is set to
      100, the minute limit is not 0 and the budget, if there is one, is positive. */
  lemma KeyDayBoundIff(enforce: bool, keys: string -> ApiKey, apiKey: string)
    ensures var key := keys(apiKey);
            !KeyDayBounded(enforce, keys, apiKey)
            <==> && enforce && key.requestsPerDay == Some(100) && key.requestsPerMinute != Some(0)
                 && (key.maxSpend.Some? ==> key.maxSpend.value > 0.0)
  {
    var limits := (k: string) => LimitsOf(enforce, keys(k));
    var key := keys(apiKey);
    DayBoundIff(limits, apiKey);
    hide TimesIn, SpanCount, WellTimed;
    if Leaky(limits(apiKey)) {
      var row := KeyRow(true, None, key.allowedModels, key.maxSpend);
      var qs := DayLeak(limits, row, apiKey);
      assert OwnRows(keys, qs) && PlausibleReadings(qs);
    } else {
      assert DayBounded(limits, apiKey);
    }
  }
}
