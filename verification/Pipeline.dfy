/** The request pipeline: rate limit, then key limits, then governance, stopping at the first rejection. */
module Pipeline {
  import opened Wrappers
  import opened SlidingWindow
  import opened WindowExpiry
  import opened Redis
  import opened Limits
  import opened Governance

  /** A request with everything it reads on its way: two clock readings, two spend readings and the key row. */
  datatype Request = Request(
    apiKey: string, model: string,
    rateTime: nat, limitsTime: nat, utc: int,
    limitsSpend: real, governanceSpend: real,
    row: Option<KeyRow>)

  /** The new windows and the gate that rejected the request, if any. */
  function Execute(windows: map<WindowKey, Window>, config: KeyLimitConfig, q: Request)
    : (map<WindowKey, Window>, Option<Gate>)
  {
    var (afterRate, rateOk) :=
      AttemptOn(windows, RateKey(q.apiKey, q.model), q.rateTime, 60, 100, RateLimitExpiry(60));
    if !rateOk then (afterRate, Some(RateGate))
    else
      var (afterLimits, rejected) :=
        CheckLimits(afterRate, q.limitsSpend, q.apiKey, q.model, config, q.limitsTime);
      if rejected.Some? then (afterLimits, rejected)
      else
        var decision := CheckRequest(q.row, q.model, q.utc, q.governanceSpend);
        (afterLimits, if decision.Block? || decision.KeyNotFound? then Some(GovernanceGate) else None)
  }

  class RequestPipeline {
    const redis: RedisStore
    const rateLimiter: RateLimiter
    const keyLimits: KeyLimits

    ghost predicate Valid() {
      rateLimiter.redis == redis && keyLimits.redis == redis
    }

    constructor (redis: RedisStore)
      ensures Valid() && this.redis == redis
    {
      this.redis := redis;
      rateLimiter := new RateLimiter(redis);
      keyLimits := new KeyLimits(redis);
    }

    method Run(apiKey: string, model: string, config: KeyLimitConfig, row: Option<KeyRow>,
               rateTime: nat, limitsTime: nat, governanceTime: nat, utc: int)
      returns (rejected: Option<Gate>)
      requires Valid()
      modifies redis`windows
      ensures (redis.windows, rejected)
           == Execute(old(redis.windows), config,
                      Request(apiKey, model, rateTime, limitsTime, utc,
                              SpendAt(redis.spend, apiKey, limitsTime),
                              SpendAt(redis.spend, apiKey, governanceTime), row))
    {
      var rateOk := rateLimiter.CheckRateLimit(apiKey, model, 60, 100, rateTime);
      if !rateOk {
        return Some(RateGate);
      }
      rejected := keyLimits.Check(apiKey, model, config, limitsTime);
      if rejected.Some? {
        return;
      }
      var spend := redis.GetSpend(apiKey, governanceTime);
      match CheckRequest(row, model, utc, spend) {
        case KeyNotFound => return Some(GovernanceGate);
        case Block(_) => return Some(GovernanceGate);
        case SoftLimit => return None;
        case Allow => return None;
      }
    }
  }

  // ----- What a request charges -----

  /** How far a request got: the number of gates it passed. */
  function Passed(verdict: Option<Gate>): nat {
    match verdict
    case Some(RateGate) => 0
    case Some(MinuteGate) => 1
    case Some(DayGate) => 2
    case Some(BudgetGate) => 3
    case Some(AllowlistGate) => 4
    case Some(GovernanceGate) => 5
    case None => 6
  }

  /** The position of a window's gate, and when and how the request meets it. */
  function StageOf(k: WindowKey): nat {
    match k case RateKey(_, _) => 0 case RpmKey(_) => 1 case RpdKey(_) => 2
  }

  predicate Concerns(k: WindowKey, q: Request) {
    k.apiKey == q.apiKey && (k.RateKey? ==> k.model == q.model)
  }

  function TimeAt(k: WindowKey, q: Request): nat {
    if k.RateKey? then q.rateTime else q.limitsTime
  }

  function WindowOf(k: WindowKey): nat {
    if k.RpdKey? then 86400 else 60
  }

  function LimitOn(k: WindowKey, config: KeyLimitConfig): nat {
    match k case RateKey(_, _) => 100 case RpmKey(_) => config.requestsPerMinute case RpdKey(_) => config.requestsPerDay
  }

  function TtlOf(k: WindowKey, config: KeyLimitConfig): nat {
    if k.RateKey? then RateLimitExpiry(60) else KeyLimitExpiry(LimitOn(k, config))
  }

  lemma LimitsChargeExactly(windows: map<WindowKey, Window>, spend: real, apiKey: string, model: string,
                            config: KeyLimitConfig, now: nat, k: WindowKey)
    ensures var (windows', verdict) := CheckLimits(windows, spend, apiKey, model, config, now);
            && (verdict.Some? ==> 1 <= Passed(verdict) <= 4)
            && (k.RateKey? || k.apiKey != apiKey || Passed(verdict) < StageOf(k) ==>
                  Lookup(windows', k) == Lookup(windows, k))
            && (!k.RateKey? && k.apiKey == apiKey && Passed(verdict) >= StageOf(k) ==>
                  var (w', ok) := Attempt(Lookup(windows, k), now, WindowOf(k), LimitOn(k, config), TtlOf(k, config));
                  Lookup(windows', k) == w' && (ok <==> Passed(verdict) > StageOf(k)))
  {
    hide Attempt, WithinBudget, ModelAllowed;
  }

  /** A request adds its timestamp to exactly the windows of the gates it passed; the window that rejected it
      is only pruned; windows of later gates and of other keys are untouched. */
  lemma {:induction false} ChargedExactly(windows: map<WindowKey, Window>, config: KeyLimitConfig, q: Request,
                                          k: WindowKey)
    ensures var (windows', verdict) := Execute(windows, config, q);
            var w, w', t := Lookup(windows, k), Lookup(windows', k), TimeAt(k, q);
            var kept := Trimmed(w, t, WindowStart(t, WindowOf(k)));
            if !Concerns(k, q) || Passed(verdict) < StageOf(k) then w' == w
            else if Passed(verdict) == StageOf(k) then w' == kept && |kept.scores| >= LimitOn(k, config)
            else w'.scores == kept.scores + [t] && |kept.scores| < LimitOn(k, config)
  {
    hide CheckRequest, Trimmed;
    var (afterRate, rateOk) :=
      AttemptOn(windows, RateKey(q.apiKey, q.model), q.rateTime, 60, 100, RateLimitExpiry(60));
    if rateOk {
      LimitsChargeExactly(afterRate, q.limitsSpend, q.apiKey, q.model, config, q.limitsTime, k);
    }
  }

  /** The window of `k` is full when the request meets its gate. */
  predicate Full(windows: map<WindowKey, Window>, config: KeyLimitConfig, q: Request, k: WindowKey) {
    var t := TimeAt(k, q);
    |Trimmed(Lookup(windows, k), t, WindowStart(t, WindowOf(k))).scores| >= LimitOn(k, config)
  }

  /** Each gate judged by itself, on the windows as the request found them. */
  predicate Fails(windows: map<WindowKey, Window>, config: KeyLimitConfig, q: Request, gate: Gate) {
    match gate
    case RateGate => Full(windows, config, q, RateKey(q.apiKey, q.model))
    case MinuteGate => Full(windows, config, q, RpmKey(q.apiKey))
    case DayGate => Full(windows, config, q, RpdKey(q.apiKey))
    case BudgetGate => !WithinBudget(q.limitsSpend, config.maxSpend)
    case AllowlistGate => !ModelAllowed(q.model, config.allowedModels)
    case GovernanceGate =>
      var decision := CheckRequest(q.row, q.model, q.utc, q.governanceSpend);
      decision.Block? || decision.KeyNotFound?
  }

  /** The gates do not influence one another: a request gets exactly as far as the first of the six gates that
      fails by itself, and passes if and only if none does. */
  lemma {:induction false} StopsAtFirstFailure(windows: map<WindowKey, Window>, config: KeyLimitConfig, q: Request)
    ensures var verdict := Execute(windows, config, q).1;
            && (forall gate :: Passed(Some(gate)) < Passed(verdict) ==> !Fails(windows, config, q, gate))
            && (verdict.Some? ==> Fails(windows, config, q, verdict.value))
            && (verdict.None? <==> forall gate :: !Fails(windows, config, q, gate))
  {
    hide Trimmed;
    ChargedExactly(windows, config, q, RateKey(q.apiKey, q.model));
    ChargedExactly(windows, config, q, RpmKey(q.apiKey));
    ChargedExactly(windows, config, q, RpdKey(q.apiKey));
    var verdict := Execute(windows, config, q).1;
    forall gate | Passed(Some(gate)) < Passed(verdict) ensures !Fails(windows, config, q, gate) {}
    assert verdict.Some? ==> Fails(windows, config, q, verdict.value);
    assert forall gate: Gate :: Passed(Some(gate)) < Passed(None);
  }

  // ----- Sequential runs -----

  /** One window gate attempted at each of `times` in turn. */
  datatype Series = Series(w: Window, admitted: seq<nat>)

  function AttemptAll(times: seq<nat>, window: nat, limit: nat, ttl: nat): Series {
    if times == [] then Series(EMPTY_WINDOW, [])
    else
      var before := AttemptAll(times[..|times| - 1], window, limit, ttl);
      var now := times[|times| - 1];
      var (w, ok) := Attempt(before.w, now, window, limit, ttl);
      Series(w, if ok then before.admitted + [now] else before.admitted)
  }

  /** The windows and verdicts after a run; every API key keeps its limits throughout. */
  datatype Outcome = Outcome(windows: map<WindowKey, Window>, verdicts: seq<Option<Gate>>)

  function RunAll(limits: string -> KeyLimitConfig, qs: seq<Request>): (o: Outcome)
    ensures |o.verdicts| == |qs|
  {
    if qs == [] then Outcome(map[], [])
    else
      var before, q := RunAll(limits, qs[..|qs| - 1]), qs[|qs| - 1];
      var (windows, verdict) := Execute(before.windows, limits(q.apiKey), q);
      Outcome(windows, before.verdicts + [verdict])
  }

  /** The times at which requests that passed at least `gates` gates met the gate of window `k`. */
  function TimesOn(qs: seq<Request>, verdicts: seq<Option<Gate>>, k: WindowKey, gates: nat): seq<nat>
    requires |qs| == |verdicts|
  {
    if qs == [] then []
    else
      var n := |qs| - 1;
      var before := TimesOn(qs[..n], verdicts[..n], k, gates);
      if Concerns(k, qs[n]) && Passed(verdicts[n]) >= gates then before + [TimeAt(k, qs[n])] else before
  }

  function TimesIn(limits: string -> KeyLimitConfig, qs: seq<Request>, k: WindowKey, gates: nat): seq<nat> {
    TimesOn(qs, RunAll(limits, qs).verdicts, k, gates)
  }

  lemma RunStep(limits: string -> KeyLimitConfig, qs: seq<Request>, q: Request)
    ensures var before, after := RunAll(limits, qs), RunAll(limits, qs + [q]);
            var (windows, verdict) := Execute(before.windows, limits(q.apiKey), q);
            after == Outcome(windows, before.verdicts + [verdict])
  {
    assert (qs + [q])[..|qs|] == qs;
  }

  lemma TimesStep(qs: seq<Request>, verdicts: seq<Option<Gate>>, q: Request, verdict: Option<Gate>,
                  k: WindowKey, gates: nat)
    requires |qs| == |verdicts|
    ensures TimesOn(qs + [q], verdicts + [verdict], k, gates)
         == TimesOn(qs, verdicts, k, gates)
            + if Concerns(k, q) && Passed(verdict) >= gates then [TimeAt(k, q)] else []
  {
    assert (qs + [q])[..|qs|] == qs && (verdicts + [verdict])[..|qs|] == verdicts;
  }

  lemma AttemptAllStep(times: seq<nat>, t: nat, window: nat, limit: nat, ttl: nat)
    ensures var before := AttemptAll(times, window, limit, ttl);
            var (w, ok) := Attempt(before.w, t, window, limit, ttl);
            AttemptAll(times + [t], window, limit, ttl) == Series(w, before.admitted + if ok then [t] else [])
  {
    assert (times + [t])[..|times|] == times;
  }

  /** One request moves window `k` by one attempt, or not at all if it does not reach that window's gate. */
  lemma SeriesStep(windows: map<WindowKey, Window>, config: KeyLimitConfig, q: Request, k: WindowKey)
    ensures var (windows', verdict) := Execute(windows, config, q);
            if !Concerns(k, q) || Passed(verdict) < StageOf(k) then Lookup(windows', k) == Lookup(windows, k)
            else Attempt(Lookup(windows, k), TimeAt(k, q), WindowOf(k), LimitOn(k, config), TtlOf(k, config))
                 == (Lookup(windows', k), Passed(verdict) > StageOf(k))
  {
    hide Attempt, CheckRequest;
    var (afterRate, rateOk) :=
      AttemptOn(windows, RateKey(q.apiKey, q.model), q.rateTime, 60, 100, RateLimitExpiry(60));
    if rateOk {
      LimitsChargeExactly(afterRate, q.limitsSpend, q.apiKey, q.model, config, q.limitsTime, k);
    }
  }

  /** The series of attempts on window `k` that the requests make. */
  function SeriesOf(limits: string -> KeyLimitConfig, qs: seq<Request>, k: WindowKey): Series {
    var config := limits(k.apiKey);
    AttemptAll(TimesIn(limits, qs, k, StageOf(k)), WindowOf(k), LimitOn(k, config), TtlOf(k, config))
  }

  /** One more request, given that the series agrees with the run so far. */
  lemma SeriesNext(limits: string -> KeyLimitConfig, qs: seq<Request>, q: Request, k: WindowKey)
    requires SeriesOf(limits, qs, k)
          == Series(Lookup(RunAll(limits, qs).windows, k), TimesIn(limits, qs, k, StageOf(k) + 1))
    ensures SeriesOf(limits, qs + [q], k)
         == Series(Lookup(RunAll(limits, qs + [q]).windows, k), TimesIn(limits, qs + [q], k, StageOf(k) + 1))
  {
    var before, config := RunAll(limits, qs), limits(k.apiKey);
    var verdict := Execute(before.windows, limits(q.apiKey), q).1;
    RunStep(limits, qs, q);
    SeriesStep(before.windows, limits(q.apiKey), q, k);
    TimesStep(qs, before.verdicts, q, verdict, k, StageOf(k));
    TimesStep(qs, before.verdicts, q, verdict, k, StageOf(k) + 1);
    AttemptAllStep(TimesIn(limits, qs, k, StageOf(k)), TimeAt(k, q), WindowOf(k), LimitOn(k, config), TtlOf(k, config));
  }

  lemma SeriesBegins(limits: string -> KeyLimitConfig, k: WindowKey)
    ensures SeriesOf(limits, [], k)
         == Series(Lookup(RunAll(limits, []).windows, k), TimesIn(limits, [], k, StageOf(k) + 1))
  {
  }

  /** Window `k` after a run is the result of the attempts that reached it, and the admitted times are
      those of the requests that got past it. */
  lemma {:induction false} WindowIsSeries(limits: string -> KeyLimitConfig, qs: seq<Request>, k: WindowKey)
    ensures SeriesOf(limits, qs, k)
         == Series(Lookup(RunAll(limits, qs).windows, k), TimesIn(limits, qs, k, StageOf(k) + 1))
  {
    hide SeriesOf, RunAll, TimesIn;
    if qs == [] {
      SeriesBegins(limits, k);
    } else {
      WindowIsSeries(limits, qs[..|qs| - 1], k);
      SeriesNext(limits, qs[..|qs| - 1], qs[|qs| - 1], k);
      assert qs == qs[..|qs| - 1] + [qs[|qs| - 1]];
    }
  }

  /** The clock never runs backwards, and the first reading is after second 0. */
  predicate WellTimed(qs: seq<Request>) {
    && (forall i :: 0 <= i < |qs| ==> 1 <= qs[i].rateTime <= qs[i].limitsTime)
    && (forall i :: 0 < i < |qs| ==> qs[i - 1].limitsTime <= qs[i].rateTime)
  }

  predicate Ascending(times: seq<nat>) {
    && (forall i :: 0 <= i < |times| ==> 1 <= times[i])
    && (forall i :: 0 < i < |times| ==> times[i - 1] <= times[i])
  }

  lemma AscendAppend(times: seq<nat>, t: nat)
    requires Ascending(times) && t >= 1 && (times != [] ==> times[|times| - 1] <= t)
    ensures Ascending(times + [t])
  {
  }

  lemma {:induction false} TimesAscend(qs: seq<Request>, verdicts: seq<Option<Gate>>, k: WindowKey, gates: nat)
    requires |qs| == |verdicts| && WellTimed(qs)
    ensures var times := TimesOn(qs, verdicts, k, gates);
            Ascending(times) && (times != [] ==> qs != [] && times[|times| - 1] <= qs[|qs| - 1].limitsTime)
  {
    if qs == [] {
    } else {
      var n := |qs| - 1;
      TimesAscend(qs[..n], verdicts[..n], k, gates);
      AscendAppend(TimesOn(qs[..n], verdicts[..n], k, gates), TimeAt(k, qs[n]));
    }
  }
}
