/** RateLimiter and KeyLimits: the gates that count requests and spend. */
module Limits {
  import opened Wrappers
  import opened SlidingWindow
  import opened WindowExpiry
  import opened Redis

  /** `maxSpend` is None where the gateway uses f64::MAX. */
  datatype KeyLimitConfig = KeyLimitConfig(
    requestsPerMinute: nat,
    requestsPerDay: nat,
    maxSpend: Option<real>,
    allowedModels: seq<string>)

  /** The gates in the order in which a request meets them. */
  datatype Gate = RateGate | MinuteGate | DayGate | BudgetGate | AllowlistGate | GovernanceGate

  predicate WithinBudget(spend: real, maxSpend: Option<real>) {
    maxSpend.None? || spend < maxSpend.value
  }

  predicate ModelAllowed(model: string, allowed: seq<string>) {
    allowed == [] || model in allowed
  }

  function AttemptOn(windows: map<WindowKey, Window>, k: WindowKey, now: nat, window: nat, limit: nat, ttl: nat)
    : (map<WindowKey, Window>, bool)
  {
    var (w, ok) := Attempt(Lookup(windows, k), now, window, limit, ttl);
    (windows[k := w], ok)
  }

  /** check_limits: per-minute window, per-day window, spend, allowlist; None when all of them pass. */
  function CheckLimits(windows: map<WindowKey, Window>, spend: real, apiKey: string, model: string,
                       config: KeyLimitConfig, now: nat): (map<WindowKey, Window>, Option<Gate>)
  {
    var (afterMinute, minuteOk) := AttemptOn(windows, RpmKey(apiKey), now, 60,
      config.requestsPerMinute, KeyLimitExpiry(config.requestsPerMinute));
    if !minuteOk then (afterMinute, Some(MinuteGate))
    else
      var (afterDay, dayOk) := AttemptOn(afterMinute, RpdKey(apiKey), now, 86400,
        config.requestsPerDay, KeyLimitExpiry(config.requestsPerDay));
      if !dayOk then (afterDay, Some(DayGate))
      else if !WithinBudget(spend, config.maxSpend) then (afterDay, Some(BudgetGate))
      else if !ModelAllowed(model, config.allowedModels) then (afterDay, Some(AllowlistGate))
      else (afterDay, None)
  }

  /** What pruning leaves is alive, so counting and adding see exactly that. */
  lemma TrimmedIsLive(w: Window, clock: nat, limit: nat)
    ensures Live(Trimmed(w, clock, limit), clock) == Trimmed(w, clock, limit).scores
  {
    PruneKeeps(Live(w, clock), limit);
  }

  class RateLimiter {
    const redis: RedisStore

    constructor (redis: RedisStore)
      ensures this.redis == redis
    {
      this.redis := redis;
    }

    method CheckRateLimit(apiKey: string, model: string, windowSecs: nat, maxRequests: nat, now: nat)
      returns (allowed: bool)
      modifies redis`windows
      ensures (redis.windows, allowed)
           == AttemptOn(old(redis.windows), RateKey(apiKey, model), now, windowSecs, maxRequests,
                        RateLimitExpiry(windowSecs))
    {
      var key := RateKey(apiKey, model);
      ghost var before := redis.windows;
      redis.ZRemRangeByScore(key, WindowStart(now, windowSecs), now);
      TrimmedIsLive(Lookup(before, key), now, WindowStart(now, windowSecs));
      var count := redis.ZCard(key, now);
      if count >= maxRequests {
        return false;
      }
      redis.ZAdd(key, now, now);
      redis.Expire(key, RateLimitExpiry(windowSecs), now);
      assert redis.windows == AttemptOn(before, key, now, windowSecs, maxRequests, RateLimitExpiry(windowSecs)).0;
      return true;
    }
  }

  class KeyLimits {
    const redis: RedisStore

    constructor (redis: RedisStore)
      ensures this.redis == redis
    {
      this.redis := redis;
    }

    method CheckSlidingWindow(key: WindowKey, now: nat, window: nat, maxRequests: nat) returns (allowed: bool)
      modifies redis`windows
      ensures (redis.windows, allowed)
           == AttemptOn(old(redis.windows), key, now, window, maxRequests, KeyLimitExpiry(maxRequests))
    {
      ghost var before := redis.windows;
      redis.ZRemRangeByScore(key, WindowStart(now, window), now);
      TrimmedIsLive(Lookup(before, key), now, WindowStart(now, window));
      var count := redis.ZCard(key, now);
      if count >= maxRequests {
        return false;
      }
      redis.ZAdd(key, now, now);
      redis.Expire(key, KeyLimitExpiry(maxRequests), now);
      assert redis.windows == AttemptOn(before, key, now, window, maxRequests, KeyLimitExpiry(maxRequests)).0;
      return true;
    }

    method Check(apiKey: string, model: string, config: KeyLimitConfig, now: nat) returns (rejected: Option<Gate>)
      modifies redis`windows
      ensures (redis.windows, rejected)
           == CheckLimits(old(redis.windows), SpendAt(redis.spend, apiKey, now), apiKey, model, config, now)
    {
      var minuteOk := CheckSlidingWindow(RpmKey(apiKey), now, 60, config.requestsPerMinute);
      if !minuteOk { return Some(MinuteGate); }
      var dayOk := CheckSlidingWindow(RpdKey(apiKey), now, 86400, config.requestsPerDay);
      if !dayOk { return Some(DayGate); }
      var spend := redis.GetSpend(apiKey, now);
      if config.maxSpend.Some? && spend >= config.maxSpend.value { return Some(BudgetGate); }
      if config.allowedModels != [] && model !in config.allowedModels { return Some(AllowlistGate); }
      return None;
    }

    /** The counter grows by the cost and is read for another day, and no longer. */
    method RecordSpend(apiKey: string, cost: real, now: nat)
      modifies redis`spend
      ensures forall clock :: now <= clock < now + 86400 ==>
                SpendAt(redis.spend, apiKey, clock) == SpendAt(old(redis.spend), apiKey, now) + cost
      ensures forall clock :: clock >= now + 86400 ==> SpendAt(redis.spend, apiKey, clock) == 0.0
      ensures forall other, clock :: other != apiKey ==>
                SpendAt(redis.spend, other, clock) == SpendAt(old(redis.spend), other, clock)
    {
      redis.AddSpend(apiKey, cost, 86400, now);
    }
  }
}
