# Zorch request path: a verified model

Zorch is an API gateway. Every request passes a chain of stateful decisions: sliding-window rate limits and a
spend budget held in Redis, middleware scripts, a routing table that is replaced while requests run, a circuit
breaker per backend, and retries nested in key failover, in backend failover, in target failover. Afterwards its
cost is recorded and shown on an analytics page. This project models those decisions and proves what holds of them
over all inputs, all runs and all interleavings.

`dafny verify dfyconfig.toml` checks everything.

| files | component |
|---|---|
| `SlidingWindow`, `WindowProtocol`, `WindowExactness`, `WindowExpiry` | one sorted set; the limiter as interleaved client steps; least bounds; key expiry |
| `Redis`, `Limits`, `Governance`, `Pipeline`, `PipelineBounds`, `PipelineProtocol`, `PipelineAlone` | the store, the gates, their order, what they admit and charge, and requests that pass them concurrently |
| `Spend` | the spend counter with requests in flight |
| `Circuit`, `Quarantine`, `CircuitBreaker` | one circuit as a function of its events; open circuits; the shared breaker |
| `HttpClient`, `AuthHeaders`, `KeyFailover`, `ProxyProvider`, `StickyCache`, `PoolFailover`, `ProxyHandler`, `RequestBody`, `Modulo` | the failover stack from a single send to the whole request |
| `Registry`, `Loader`, `ModelResolver`, `HotReload` | routing tables, their construction from the database, resolution, replacement under load |
| `Middleware` | the phase engine |
| `Pricing`, `Analytics` | cost of a request, daily totals |

## How the model is built

Components that update fields or stored data in place are classes or methods with loops, each proved equal to a
function of the old state; the properties are lemmas about those functions and about runs of them. Concurrency is a
transition system whose schedules are arbitrary. Clock readings, random numbers, upstream replies, script results,
row orders and other requests' breaker events are parameters or arbitrary choices, so every theorem holds for all
of them. Times are whole seconds (milliseconds for retry delays), money is exact, and the gateway's clock and
Redis's clock are one. The lemmas about trails, attempts and courses of sends start
from what the contracts of `ProxyRequest`, `TryTargetPool` and `ServeTargets` ensure.

## What the proofs found

- **The window bound depends on when the clock is read.** If no time passes between a client's clock read and its
  count, a span of one window holds at most `limit + clients - 1` admissions, and this is the least bound. The code
  reads the clock before it talks to Redis. Delays of up to `d` seconds there keep the bound for exactly the spans of
  length `window - d` and less; for one client, for all spans of a window that are by `d` shorter than the expiry. With
  arbitrary delays, even past the expiry of the key, the least bound on a span of one window is
  `limit + 2 * clients - 1`, so even one client can exceed the limit by one.
- **When these bounds hold.** Both hold exactly if the key does not expire before its window is over and the clock
  starts after second 0 (or nothing can be counted at all). At clock 0 `saturating_sub` makes the pruned range include
  the current second.
- **A day limit of exactly 100** gets a 120-second key expiry, because the expiry is chosen by the limit alone
  (`key_limits.rs:145`), and each two idle minutes forget the day. The pipeline respects a key's day limit in every
  sequential run if and only if that limit is not 100 or nothing passes at all: the minute limit is 0, or the budget is
  not positive.
- **Who can notice a key expiry.** Expiry changes no decision as long as it covers the window and the longest delay
  between a client's clock read and its count: a minute for the model window, 100 seconds for the day window, and for
  a day window with limit 100 it can be noticed without any delay.
- **The health check reads the clock twice.** A check that straddles the timeout answers "healthy" while the
  circuit stays open.
- **A threshold or probe count of 0 acts as 1.**
- **A request header of the same name takes the place of the key's.** Key failover sends different requests for
  different keys if and only if the client's headers leave the key its header; with bearer authorization they always do.
- **A panicking script** stops the phase even if it is fail-open and leaves no audit record.
- **Analytics casts token sums to 32 bits.** The shown cost is exact if and only if no group overflows on a side
  that is charged for (prices not negative).
- **The kill-switch does not skip the per-key gates.** The top-level README says
  `ZORCH_ENFORCE_PER_KEY_GOVERNANCE=false` skips them; the code applies the defaults (100 per minute, 10000 per day,
  100 USD), and governance still applies the key's own budget and allowlist. The model follows the code.
- **Negative limits** of a key row become huge by the unsigned cast, which is to say unlimited.
- **Budget gates.** On one spend reading the second budget gate disagrees with the first only for budgets that are
  not positive, and never while recorded spend is not negative.

## Model

| member | source | states |
|---|---|---|
| SlidingWindow.PruneKeeps | crates/zorch-gateway/src/rate_limit.rs:44-46 | pruning removes exactly the scores up to the window start |
| WindowProtocol.AnyScheduleInv | crates/zorch-gateway/src/rate_limit.rs:36-71 | on every interleaving of clock read, prune, count and commit, for every span: before the span is first pruned or expired, admissions plus clients about to commit stay below limit + clients; afterwards only clients whose reading predates it can still add |
| WindowProtocol.AnyScheduleBound | crates/zorch-gateway/src/rate_limit.rs:36-71 | any span of one window holds at most limit + 2·clients − 1 admissions, whatever the schedule |
| WindowProtocol.DelayScheduleBound | crates/zorch-gateway/src/rate_limit.rs:36-71 | if at most d seconds pass between a client's clock read and its count, any span of length window − d holds at most limit + clients − 1 admissions; for one client any span of a window that is by d shorter than the expiry |
| WindowProtocol.PromptScheduleBound | crates/zorch-gateway/src/rate_limit.rs:36-71 | if no time passes between a client's clock read and its count, any span holds at most limit + clients − 1 admissions, and at most the limit for one client |
| WindowExactness.PromptBoundIsLeast | crates/zorch-gateway/src/rate_limit.rs:36-71 | limit + clients − 1 is the least bound over all prompt schedules |
| WindowExactness.AnyBoundIsLeast | crates/zorch-gateway/src/rate_limit.rs:36-71 | limit + 2·clients − 1 is the least bound over all schedules |
| WindowExactness.PromptBoundHoldsIff | crates/zorch-gateway/src/rate_limit.rs:42-69 | for every limit, window, expiry and starting clock: the promised bound holds on all prompt schedules if and only if the clock starts after second 0 and the expiry is at least the window, or the limit or the window is 0 |
| WindowExactness.AnyBoundHoldsIff | crates/zorch-gateway/src/rate_limit.rs:42-69 | the bound limit + 2·clients − 1 holds on all schedules in exactly the same cases |
| WindowExactness.DelayBoundHoldsIff | crates/zorch-gateway/src/rate_limit.rs:36-71 | for every limit, window, expiry, starting clock, number of clients, delay and length: the bound limit + clients − 1 holds on all schedules with such delays if and only if the clock starts after second 0 and the span is covered (length + delay at most the window, or for one client length at most the window; and length + delay at most the expiry), or the limit or the length is 0 |
| WindowExactness.RoundIsAttempt | crates/zorch-gateway/src/rate_limit.rs:36-71 | a client that is not interrupted does to the set exactly what the sequential gate does |
| WindowExpiry.RunRelated | crates/zorch-gateway/src/rate_limit.rs:65-69 | with an expiry that covers the window and the longest delay between clock read and count, a run and the same run without expiry agree on every decision and on everything that can still count |
| WindowExpiry.UnobservableIff | crates/zorch-gateway/src/key_limits.rs:116-152 | over all schedules with delays of at most d, key expiry never changes a decision if and only if it is at least the window plus d (or the limit is 0) |
| WindowExpiry.ServiceExpiries | crates/zorch-gateway/src/key_limits.rs:145-149 | the service's expiries are unobservable exactly up to a delay of 60 seconds for the model window, of 86440 (limit 100: 60) for the minute window and of 100 for the day window, and never for a day window with limit 100 |
| Limits.RateLimiter.CheckRateLimit | crates/zorch-gateway/src/rate_limit.rs:23-72 | prune, count, and below the limit add and expire: the key's set becomes that of one attempt, all other keys are untouched |
| Limits.KeyLimits.CheckSlidingWindow | crates/zorch-gateway/src/key_limits.rs:116-152 | the same for a per-key window, with the expiry chosen by the limit |
| Limits.KeyLimits.Check | crates/zorch-gateway/src/key_limits.rs:39-111 | minute window, day window, spend, allowlist, in this order, stopping at the first rejection |
| Limits.KeyLimits.RecordSpend | crates/zorch-gateway/src/key_limits.rs:158-180 | for a whole day the spend read is the old one plus the cost, and after it nothing; other keys are unaffected |
| Governance.BudgetBands | crates/zorch-gateway/src/governance.rs:83-112 | a positive budget blocks from the budget on and alerts strictly above 80% of it |
| Governance.BudgetGatesDisagreeIff | crates/zorch-gateway/src/governance.rs:57-112 | given that the first gates passed on the same reading, governance blocks if and only if the key is inactive or (unexpired) has a budget that is not positive |
| Governance.SecondGateAgrees | crates/zorch-gateway/src/governance.rs:57-112 | with spend that is not negative, governance never blocks for budget or allowlist what the first gates passed on the same reading |
| Governance.KillSwitchStillBlocks | crates/zorch-api/src/routes/v1/proxy/governance.rs:21-38 | with enforcement off, an active unexpired key that passed the default budget is blocked exactly by its own allowlist or budget |
| Pipeline.RequestPipeline.Run | crates/zorch-gateway/src/pipeline.rs:39-91 | rate limit, key limits, governance, stopping at the first rejection, with each gate's effect on the windows |
| Pipeline.ChargedExactly | crates/zorch-gateway/src/pipeline.rs:50-84 | a request adds its timestamp to exactly the windows of the gates it passed; the rejecting window is only pruned and was full; later windows and other keys are untouched |
| Pipeline.StopsAtFirstFailure | crates/zorch-gateway/src/pipeline.rs:50-84 | the gates do not influence one another: a request stops at the first of the six gates that fails when judged by itself on the windows the request found, and passes if and only if none fails |
| Pipeline.WindowIsSeries | crates/zorch-gateway/src/pipeline.rs:39-91 | after any run, each window is the result of the attempts that reached it alone, and its admitted times are those of the requests that got past it |
| PipelineBounds.SeriesIsRun | crates/zorch-gateway/src/rate_limit.rs:36-71 | sequential attempts at non-decreasing times are a prompt one-client schedule of the protocol |
| PipelineBounds.PipelineAdmission | crates/zorch-gateway/src/pipeline.rs:50-84 | in every sequential run, requests passing the pipeline are bounded by 100 per key and model per 60 s, the minute limit per 60 s, and the day limit per 86400 s unless it is 100 |
| PipelineBounds.EnforcedLimits | crates/zorch-api/src/routes/v1/proxy/governance.rs:21-38 | those bounds in terms of the key row: set limits that are not negative, defaults for missing ones, defaults for all with enforcement off |
| PipelineBounds.RejectionIsEarned | crates/zorch-gateway/src/rate_limit.rs:48-63 | in every sequential run a window gate rejects a request only after it has let at least its limit of others through, all within the window before the request |
| PipelineBounds.RejectedByRow | crates/zorch-api/src/routes/v1/proxy/governance.rs:21-38 | the same in terms of the key row: at least 100 for the rate gate; at least the limit that is set (a negative one plus 2^64), or the default 100 per minute and 10000 per day |
| PipelineBounds.LaterGatesByRow | crates/zorch-gateway/src/governance.rs:37-112 | in terms of the key row, for a request that gets as far: when exactly the budget gate, the allowlist gate and governance stop it |
| PipelineBounds.DayBoundIff | crates/zorch-gateway/src/key_limits.rs:145-149 | for every key and all limits: while recorded spend is not negative, every sequential run respects the day limit if and only if it is not 100, or the minute limit is 0, or the budget is not positive |
| PipelineBounds.DayLeak | crates/zorch-gateway/src/key_limits.rs:145-149 | otherwise 101 requests pass within a day although nothing is spent and each reads the key's own active row |
| PipelineBounds.KeyDayBoundIff | crates/zorch-api/src/routes/v1/proxy/governance.rs:21-38 | in terms of the key row: the enforced day limit fails exactly with enforcement on, a day limit of 100, a minute limit that is not 0 and no budget or a positive one |
| PipelineProtocol.ViewRun | crates/zorch-gateway/src/pipeline.rs:39-91 | with requests interleaved step by step, what happens to one window is a schedule of the window protocol |
| PipelineProtocol.AllAccounted | crates/zorch-gateway/src/pipeline.rs:39-91 | every request that has passed, or has got beyond a window, was admitted to it |
| PipelineProtocol.ConcurrentAdmission | crates/zorch-gateway/src/pipeline.rs:50-84 | with c requests in the pipeline at a time, rejections and departures included, those that pass number at most limit + 2c − 1 per span of each window whatever the delays, and at most limit + c − 1 in the spans that expiry and delay leave covered |
| PipelineProtocol.PromptAdmission | crates/zorch-gateway/src/pipeline.rs:50-84 | without delays: at most 100 + c − 1 per key and model and minute limit + c − 1 per key in 60 s, and day limit + c − 1 in 86400 s unless it is 100 |
| PipelineAlone.AloneIsSequential | crates/zorch-gateway/src/pipeline.rs:50-84 | a request that takes its steps while nobody else does leaves the windows as the sequential pipeline does and gets past them exactly if the sequential pipeline lets it, and then its next step is the pass |
| Spend.BoundedOverspend | crates/zorch-gateway/src/key_limits.rs:94-102 | on every interleaving of admissions, recordings, failures and counter expiries, recorded spend plus cost in flight stays below the budget plus the cost in flight at the last admission |
| Spend.RecordedSpendBound | crates/zorch-api/src/routes/v1/proxy/usage.rs:95-98 | recorded spend stays below the budget plus the total cost of the requests in flight at the last admission |
| Spend.OverspendIsSharp | crates/zorch-gateway/src/key_limits.rs:94-102 | some run comes as close to that bound as desired |
| Spend.LedgerBalance | crates/zorch-gateway/src/key_limits.rs:158-180 | on every interleaving, recorded spend plus cost in flight plus what was aborted or expired is the cost of what was admitted |
| Circuit.RunMeetsSpec | crates/zorch-gateway/src/circuit_breaker.rs:39-102 | after any trace the circuit is the one given by the trace's division into periods: closed with the current failure run, open from the threshold-th consecutive failure until a late enough check, half-open with the successes since |
| Circuit.HasEpochs | crates/zorch-gateway/src/circuit_breaker.rs:39-102 | every trace has such a division |
| Circuit.ReachableCounters | crates/zorch-gateway/src/circuit_breaker.rs:39-102 | failures are below the threshold while closed and never above it, successes are below the probe count, an open circuit has a last failure and it is the latest one |
| Circuit.NeverTripsIff | crates/zorch-gateway/src/circuit_breaker.rs:58-66 | a circuit stays closed through a trace if and only if no failure run reaches the threshold |
| Quarantine.OpenQuarantine | crates/zorch-gateway/src/circuit_breaker.rs:52-103 | an open circuit stays open and every check answers unhealthy until the timeout after the most recent failure, whatever else is recorded |
| Quarantine.ProbeIff | crates/zorch-gateway/src/circuit_breaker.rs:154-161 | a check of an open circuit answers healthy if and only if its second clock reading is past the timeout, and moves to half-open if and only if its first one is |
| Quarantine.ClosesOnlyAfterProbes | crates/zorch-gateway/src/circuit_breaker.rs:44-51 | from open, closed is reached only so: a check past the timeout finds the circuit open, it stays half-open through exactly the configured number of successes with no failure, and the last of these closes it |
| CircuitBreaker.BackendCircuit.RecordSuccess | crates/zorch-gateway/src/circuit_breaker.rs:39-56 | the effect of a success in each state |
| CircuitBreaker.BackendCircuit.RecordFailure | crates/zorch-gateway/src/circuit_breaker.rs:58-76 | the effect of a failure in each state |
| CircuitBreaker.BackendCircuit.TransitionIfNeeded | crates/zorch-gateway/src/circuit_breaker.rs:93-102 | open becomes half-open once the timeout has passed |
| CircuitBreaker.CircuitBreaker.RecordSuccess | crates/zorch-gateway/src/circuit_breaker.rs:136-142 | the shared map keeps every backend's circuit equal to the run over its own events |
| CircuitBreaker.CircuitBreaker.RecordFailure | crates/zorch-gateway/src/circuit_breaker.rs:145-151 | the same for failures |
| CircuitBreaker.CircuitBreaker.IsBackendHealthy | crates/zorch-gateway/src/circuit_breaker.rs:154-161 | the same for checks, and the answer is that of the backend's own run |
| HttpClient.ExecuteWithRetry | crates/zorch-providers/src/http_client.rs:100-156 | the result, the sends and the sleeps are those of the retry run |
| HttpClient.FirstSettledReply | crates/zorch-providers/src/http_client.rs:106-155 | a run ends at the first reply not worth a retry or after max_retries + 1 sends; a response passed on is never of a retryable status |
| HttpClient.RetriesIff | crates/zorch-providers/src/http_client.rs:119-148 | a run has more than k + 1 sends if and only if k is below max_retries and each of its first k + 1 replies is a status of the configured set, a network error or a timeout |
| HttpClient.CappedDelays | crates/zorch-providers/src/http_client.rs:86-91 | capped delays never decrease, stay capped once capped, and the saturation is invisible behind the cap |
| HttpClient.DelayDoubles | crates/zorch-providers/src/http_client.rs:86-91 | the capped delay starts at the base and doubles with each retry up to the maximum |
| HttpClient.JitterRange | crates/zorch-providers/src/http_client.rs:93-96 | the delays that some random number gives are exactly those from the capped delay to a fifth above it |
| HttpClient.EachWaitBound | crates/zorch-providers/src/http_client.rs:93-96 | whatever the jitter, each wait is between the capped delay and 6/5 of it, so at most 6/5 of the maximum |
| HttpClient.TotalWaitBound | crates/zorch-providers/src/http_client.rs:106-153 | the total wait is at most 6/5 of the sum of min(base·2^i, max) over the retries |
| KeyFailover.FindKeyIndex | crates/zorch-providers/src/proxy.rs:88-90 | the first position of a key id, or none if it does not occur |
| AuthHeaders.FilterClientHeaders | crates/zorch-api/src/routes/v1/proxy/request.rs:81-98 | the loop keeps the headers with other names than the dropped ones, the last of each name |
| AuthHeaders.FilteredIff | crates/zorch-api/src/routes/v1/proxy/request.rs:81-98 | a header is kept if and only if the client sent it and its name is not a dropped one |
| AuthHeaders.SentHeaders | crates/zorch-providers/src/auth_headers.rs:106-149 | what goes out under each name: the client's last value unless the name is one of the seven dropped ones, else application/json or the auth type's own headers with the key, else nothing |
| AuthHeaders.MergeHeaders | crates/zorch-providers/src/proxy.rs:164-169 | the provider's headers are added exactly where the request has none of that name |
| AuthHeaders.KeyGoesOut | crates/zorch-providers/src/proxy.rs:156-169 | a request goes out with the credential of the key whose turn it is if the client's headers leave it that header; otherwise it is the same request for every key |
| AuthHeaders.KeysDifferIff | crates/zorch-providers/src/auth_headers.rs:106-147 | two different keys send different requests if and only if the client's headers leave the key its header, which they always do for bearer authorization |
| ProxyProvider.ProxyRequest | crates/zorch-providers/src/proxy.rs:119-211 | result and number of sends are those of the cyclic walk; the log grows by the sends of a walk from the preferred key on whose result is this one, each to this backend, with this body and with the headers of the key whose turn it is |
| ProxyProvider.SendsInOrder | crates/zorch-providers/src/proxy.rs:152-207 | each send of a walk is on the turn of the key at its place in the cyclic order, with that key's headers; only unusable keys are passed over; the same key is sent again if and only if it has retries left and the reply called for one; the next key's turn comes only after an error, a retryable status, 5xx or 429 |
| ProxyProvider.ServedByLastSend | crates/zorch-providers/src/proxy.rs:171-193 | a served walk was answered by its last send, which was on the turn of the key it names and with its secret; the status is not retryable, not 5xx and not 429 |
| ProxyProvider.FailedTriedAll | crates/zorch-providers/src/proxy.rs:152-210 | a failed walk has sent on the turn of every usable key, and the last reply to each was an error, a retryable status, 5xx or 429 |
| ProxyProvider.StartsWith | crates/zorch-providers/src/proxy.rs:147-153 | the first send of a walk is on the turn of the key it starts at, if that key is usable |
| ProxyProvider.FailureKind | crates/zorch-providers/src/proxy.rs:151-210 | a failed walk reports what became of the last key in the order: an internal error if it is unusable, else the error of the last reply, or a network error for a status; without keys a network error |
| KeyFailover.KeyFailoverOrder | crates/zorch-providers/src/proxy.rs:147-210 | no key is visited twice; each visit is the retry run on the upstream's replies to the sends that follow those of the keys before it; the request is served by the first key in cyclic order with a response neither 5xx nor 429, and fails only if every key failed |
| KeyFailover.WalkInOrder | crates/zorch-providers/src/proxy.rs:152-210 | the visits follow the cyclic order and a failure reports the error of the last key |
| KeyFailover.CyclicNext | crates/zorch-providers/src/proxy.rs:152-153 | each position is followed by the next one and the last by the first |
| KeyFailover.StartsAtPreferred | crates/zorch-providers/src/proxy.rs:147-150 | the walk starts at the first key with the preferred id, or at index 0 if there is none or no preference |
| KeyFailover.WalkSends | crates/zorch-providers/src/proxy.rs:152-210 | a walk takes at most keys × (max_retries + 1) sends |
| StickyCache.StickyTargetKeyCache.NextKeyIndex | crates/zorch-cache/src/sticky_target_key_cache.rs:42-87 | the counter is incremented, its expiry set only when new, and the index is the old count modulo the keys |
| StickyCache.StickyTargetKeyCache.ResolveStickyTargetKey | crates/zorch-api/src/routes/v1/proxy/mod.rs:113-154 | cached key if the provider still has it, else the next one in round robin, which is stored |
| StickyCache.ResolvesToCurrentKey | crates/zorch-api/src/routes/v1/proxy/mod.rs:113-154 | whatever the cache holds, a provider with a key resolves to a key it has, and repeated resolution gives the same key while the mapping lives |
| StickyCache.ResolvesTo | crates/zorch-api/src/routes/v1/proxy/mod.rs:113-154 | a live mapping to a key of the provider is the answer and nothing changes; otherwise it is the key at the counter's value modulo the keys, which is stored for the time to live, and the counter goes up by one |
| StickyCache.Forgets | crates/zorch-cache/src/sticky_target_key_cache.rs:42-87 | a mapping is read until its time to live is over and not after; an expired counter starts again at the first key |
| StickyCache.StickyAfterSuccess | crates/zorch-api/src/routes/v1/proxy/mod.rs:252-256 | after a success through key k, requests resolve to k while the mapping lives and k remains; other slots are unaffected |
| StickyCache.RememberedResolves | crates/zorch-api/src/routes/v1/proxy/mod.rs:113-154 | while the cache remembers a key for a slot and the provider has it, requests resolve to it |
| StickyCache.RoundRobinCovers | crates/zorch-cache/src/sticky_target_key_cache.rs:54-87 | n consecutive draws within the lifetime of a counter over n keys yield every index exactly once, whether it was there before or the first draw creates it |
| RequestBody.RewriteCarries | crates/zorch-api/src/routes/v1/proxy/mod.rs:91-106 | an object body gets the target model and is otherwise unchanged, as is any other body; rewriting again replaces the model |
| PoolFailover.CheckHealth | crates/zorch-api/src/routes/v1/proxy/mod.rs:186-202 | exactly the candidates whose check passes are listed, and each check is recorded, whatever other requests do to the breaker before and between the checks |
| PoolFailover.TryTargetPool | crates/zorch-api/src/routes/v1/proxy/mod.rs:161-278 | at most pool-size attempts; an unhealthy candidate is chosen only when none passed at that attempt; stops at the first success; fails only when all attempts failed; the log grows by exactly the attempts' walks, each starting at its sticky key; a response is the upstream's reply to the last send, which names its backend and key, and is neither retryable nor 5xx nor 429; the breaker is told exactly what the attempts and other requests did; the cache is exactly what resolving and remembering make of it |
| PoolFailover.FailedPoolTriedAll | crates/zorch-api/src/routes/v1/proxy/mod.rs:219-277 | if no attempt served, each attempt sent on the turn of every usable key of its candidate, and the last reply to that key was an error, a retryable status, 5xx or 429 |
| PoolFailover.StickyKeyFirst | crates/zorch-api/src/routes/v1/proxy/mod.rs:216-229 | an attempt for which the cache holds a live mapping to a usable key of its candidate sends with that key first |
| PoolFailover.OneFailurePerFailedAttempt | crates/zorch-api/src/routes/v1/proxy/mod.rs:231-276 | for each backend exactly one breaker failure is recorded per attempt made on it that failed, none on success, whatever other requests record meanwhile |
| ProxyHandler.ServeTargets | crates/zorch-api/src/routes/v1/proxy/mod.rs:428-547 | targets in turn, each against the registry current at its turn and only after all before it failed; each pool's outcome, sends and cache as TryTargetPool promises; a response is the upstream's reply to the last send, which names its backend and key; it is passed on exactly if it is readable, and only then a success of its backend is recorded; all targets failing is the only way to be unavailable; sends bounded by the sum over targets of pool size × most keys × (max_retries + 1); the key that served is remembered for its provider |
| ProxyHandler.UnservedTriedAll | crates/zorch-api/src/routes/v1/proxy/mod.rs:428-547 | if no target served the request, as many attempts were made for each as its pool has backends, each sent on the turn of every usable key of its backend, and the last reply to that key was an error, a retryable status, 5xx or 429 |
| ProxyHandler.StickyKeySentFirst | crates/zorch-api/src/routes/v1/proxy/mod.rs:216-229 | over all targets, an attempt for which the cache holds a live mapping to a usable key of its backend sends with that key first |
| ProxyHandler.CourseRecords | crates/zorch-api/src/routes/v1/proxy/mod.rs:428-547 | over all targets a request records for each backend one breaker failure per attempt made on it that failed and nothing else before its response, whatever other requests record in between |
| ProxyHandler.SendsCarryTargetModel | crates/zorch-api/src/routes/v1/proxy/mod.rs:430-447 | each send goes to a backend of some target's pool on the turn of a usable key of it, carries that same target's model and the headers for that key, which hold the key's credential if the client's headers leave it that place and are the same for every key if not |
| Registry.WithModelsPools | crates/zorch-providers/src/registry.rs:23-36 | a backend joins exactly the pools of its own provider and models, once each |
| Registry.ProxyProviderRegistry.Register | crates/zorch-providers/src/registry.rs:23-36 | the effect of registering on backends and pools |
| Loader.LookupAgrees | crates/zorch-providers/src/registry.rs:59-72 | find_backends lists without duplicates exactly the active providers of that name with an active key and that active model |
| Loader.Load | crates/zorch-api/src/server/providers.rs:25-207 | for any row and hash order: fallback if and only if no provider is active, failure if and only if an active one has invalid auth, else a registry that agrees with the query and a resolver in which each target occurs as often as there are alias rows with exactly its public name, provider, model and priority |
| Loader.AliasesInOrder | crates/zorch-api/src/server/providers.rs:136-170 | a model's targets are its alias rows, one for one and in row order, field by field |
| Loader.KeysInOrder | crates/zorch-api/src/server/providers.rs:102-119 | a provider's keys are its active key rows, one for one and in row order |
| Loader.KeysCount | crates/zorch-api/src/server/providers.rs:102-119 | a key occurs as often as there are active rows of this provider with its id and secret |
| ModelResolver.ModelResolver.AddTarget | crates/zorch-providers/src/model_resolver.rs:31-34 | the target is appended to its public model's list |
| ModelResolver.ModelResolver.Resolve | crates/zorch-providers/src/model_resolver.rs:36-64 | the in-place group loop computes the group shuffle of the sorted active targets |
| ModelResolver.ByIsEach | crates/zorch-providers/src/model_resolver.rs:51-61 | shuffling between group ends in place is shuffling each group by itself |
| ModelResolver.ReachAll | crates/zorch-providers/src/model_resolver.rs:51-61 | any other order of the same priority groups is reached by some draws |
| ModelResolver.ResolveExactly | crates/zorch-providers/src/model_resolver.rs:38-64 | the possible results are exactly the orders of the targets with a provider in which no target precedes one of higher priority |
| ModelResolver.ActiveCounts | crates/zorch-providers/src/model_resolver.rs:41-44 | only targets with an empty provider are dropped |
| HotReload.RoutingIsSafe | crates/zorch-api/src/server/providers.rs:217-221 | for every interleaving of requests and reload stores, whatever tables are stored, the routing invariant holds: pools come from one stored registry, targets from a stored resolver |
| HotReload.EverySendIsSafe | crates/zorch-api/src/routes/v1/proxy/mod.rs:170-171 | every send goes to a backend that one stored registry lists under the target's provider and model, and an object body carries that model; if that registry agrees with the tables a load has read, as every loaded one does, the backend serves them by these tables |
| HotReload.RoutedByLatest | crates/zorch-api/src/routes/v1/proxy/mod.rs:349-350 | a request is routed by the resolver stored last, and each pool is loaded from the registry stored last |
| HotReload.ReloadReachesRequests | crates/zorch-api/src/server/providers.rs:217-221 | for every interleaving, everything a request sends is routed by the resolver current at its arrival or a later one and from the registry current then or a later one |
| HotReload.HandlerRunIsHistory | crates/zorch-api/src/routes/v1/proxy/mod.rs:428-547 | a whole run of the proxy handler is a history of this system: some history whose registry at each target's turn is the handler's sends exactly what the handler sent, in order |
| Middleware.MiddlewareEngine.RunPhase | crates/zorch-gateway/src/middleware/engine.rs:100-239 | the loop computes the ordered fold and issues its records |
| Middleware.PhaseIsFaithful | crates/zorch-gateway/src/middleware/engine.rs:118-239 | enabled scripts run in order on what the previous one left; a block, a fail-closed error or a panic is the last run; one record per script run to its end, marked exactly if that step changed the body; a step that changes the body leaves the headers alone |
| Middleware.FailingScript | crates/zorch-gateway/src/middleware/engine.rs:190-235 | a reached script with an error, or a result whose action is missing, not text or unknown, stops the phase with status 400 if it is fail-closed and leaves the input unchanged if it is fail-open; its record says so |
| Middleware.PanickingScript | crates/zorch-gateway/src/middleware/engine.rs:130-134 | a panic stops the phase whatever the failure mode, with status 400 and without a record |
| Middleware.ErasingFailures | crates/zorch-gateway/src/middleware/engine.rs:190-235 | erasing a fail-open script that errors leaves the result unchanged |
| Middleware.ContinuingScript | crates/zorch-gateway/src/middleware/rhai_runtime.rs:177-199 | a script that continues hands on the body it returned, and the headers it returned only if the body is the one it saw and they are a non-empty object of texts; it is recorded as a success, marked if the body changed |
| Middleware.EndOfPhase | crates/zorch-gateway/src/middleware/engine.rs:118-239 | a phase passes exactly what its last script leaves, if it gets that far |
| Middleware.BlockingScript | crates/zorch-api/src/routes/v1/proxy/mod.rs:51-61 | a block stops the phase with the script's message or the default one and is answered with a valid status: the script's, cut to 16 bits, if that is one, else 400, and 403 if it gives none |
| Pricing.PricingEngine.CalculateCost | crates/zorch-gateway/src/pricing.rs:82-100 | provider cost and, above it, the markup percentage of it; both zero for an unpriced model |
| Pricing.RecordUsage | crates/zorch-api/src/routes/v1/proxy/usage.rs:46-99 | spend grows by the provider cost always; a billing row is stored exactly if the record is valid |
| Analytics.RowsAreStored | crates/zorch-api/src/routes/v1/proxy/usage.rs:46-99 | the sums over the stored rows of a group are the sums of its requests' input and output tokens as 32-bit signed values |
| Analytics.CostByDay | crates/zorch-api/src/routes/admin/analytics.rs:139-157 | the accumulated map holds each day's total over its groups |
| Analytics.OnlyCost | crates/zorch-gateway/src/pricing.rs:91-95 | the provider cost is the one function that adds up over token amounts and charges the configured prices for a million input and a million output tokens |
| Analytics.CostIsLinear | crates/zorch-gateway/src/pricing.rs:91-95 | cost is linear in tokens |
| Analytics.PageTotal | crates/zorch-api/src/routes/admin/analytics.rs:118-157 | a day's total is the sum of its requests' costs less what the 32-bit casts drop |
| Analytics.CostConservation | crates/zorch-api/src/routes/admin/analytics.rs:118-157 | day totals equal the summed request costs whenever each group's token sums fit in 32 bits |
| Analytics.CostConservationIff | crates/zorch-api/src/routes/admin/analytics.rs:149-156 | without negative prices, they are equal if and only if no group overflows on a side that is charged for |

## Left out

- The dashboard, admin handlers, health, telemetry, inspector and OpenAPI parts.
- Errors of Redis, Postgres and the HTTP transport of the gateway itself; the stores are always available, and fallbacks such as `unwrap_or(0.0)` are not modelled.
- ZADD and EXPIRE of one admission are one step of the protocol; a crash or a wait between them is not modelled.
- WindowProtocol.AnyScheduleBound: the expiry is required to be at least the window; AnyBoundHoldsIff shows that it has to be.
- WindowExpiry.UnobservableIff: an empty window together with a delay as long as the expiry is not covered; the service has no such window.
- WindowExpiry.ServiceExpiries: the same for the model window.
- PipelineBounds.PipelineAdmission: each gate runs within one clock second of its own reading, and a key keeps its limits during the run; interleaved requests are the subject of PipelineProtocol, where budget, allowlist and governance are reduced to passing or leaving.
- The loader's four queries are not one transaction: `Tables` is what they returned, which need not be one state of the database.
- The requests of the analytics page are those its query selects, whose time limit cuts the oldest day at the current hour.
- The sticky cache of one request: other requests do not write to the same slot while it runs.
- Floating point: costs, spend and ratios are exact, the jitter range is the exact fifth, and an unset budget (the largest double) is no limit at all. Rounding of day totals to cents is not modelled.
- Spend.BoundedOverspend: costs are not negative; how a cost is computed is in Pricing.
- The Rhai interpreter: a script is any function from its input to a value, an error or a panic. Loading of script rows is their ordered list; failures to store an audit record are not modelled.
- Key encryption and header syntax: a key is usable or not, header names are in lower case, and the headers of scripts are merged in before the model begins.
- PoolFailover.CheckHealth: the checks of one attempt are made in list order; as each touches its own backend's circuit only and other requests act anywhere between them, another order changes no answer.
- The random selection and the shuffle draw from arbitrary numbers; their distribution is not modelled.
- The streaming path and the usage capture of streams: the test for it receives the normalised path.
- Access windows, tags and the environment fallback's contents.
- HotReload.RoutingIsSafe: requests are reduced to the loads, choices and sends; what a pool does between sends is in PoolFailover.
