/** Trying the backends of one target, guided by the circuit breaker and the sticky key cache. */
module PoolFailover {
  import opened Wrappers
  import opened AuthHeaders
  import opened Circuit
  import opened CircuitBreaker
  import opened HttpClient
  import opened KeyFailover
  import opened ProxyProvider
  import opened StickyCache
  import opened RequestBody

  /** What other requests tell the shared breaker. */
  type Others = seq<(BackendId, Event)>

  /** One candidate's health check: what other requests do to the breaker before it, and its two clock readings. */
  datatype HealthCheck = HealthCheck(earlier: Others, transitionAt: nat, answerAt: nat)

  /** What an attempt meets but does not control: the health check of each candidate, what other requests do to the
      breaker while it is being sent, clock readings and random numbers. */
  datatype Surroundings = Surroundings(
    checks: seq<HealthCheck>, meanwhile: Others, resolvedAt: nat, endedAt: nat, freshKey: KeyId, draws: nat -> nat)

  /** One attempt: what it met, the chosen candidate, what it gave, and its sends. */
  datatype Attempt = Attempt(here: Surroundings, chosen: nat, result: KeyResult, trail: Trail<Body>)

  datatype Attempts = Untried | Tried(before: Attempts, last: Attempt)

  function CountTries(tries: Attempts): nat {
    if tries.Untried? then 0 else CountTries(tries.before) + 1
  }

  predicate AllFailed(tries: Attempts) {
    tries.Tried? ==> tries.last.result.Failed? && AllFailed(tries.before)
  }

  // ----- What attempts tell the breaker -----

  function NoteOthers(log: Log, others: Others, n: nat): Log
    requires n <= |others|
  {
    if n == 0 then log else Noted(NoteOthers(log, others, n - 1), others[n - 1].0, others[n - 1].1)
  }

  /** The log after the first `n` health checks and everything that happened between them. */
  function NoteChecks(log: Log, candidates: seq<Provider>, checks: seq<HealthCheck>, n: nat): Log
    requires n <= |checks| && n <= |candidates|
  {
    if n == 0 then log
    else
      var before, check := NoteChecks(log, candidates, checks, n - 1), checks[n - 1];
      Noted(NoteOthers(before, check.earlier, |check.earlier|), candidates[n - 1].backendId,
            Check(check.transitionAt, check.answerAt))
  }

  /** The log when the health check of candidate `i` is made. */
  function LogAtCheck(log: Log, candidates: seq<Provider>, checks: seq<HealthCheck>, i: nat): Log
    requires i < |checks| && i < |candidates|
  {
    NoteOthers(NoteChecks(log, candidates, checks, i), checks[i].earlier, |checks[i].earlier|)
  }

  /** The health check of candidate `i` answers that it is healthy. */
  predicate PassesCheck(config: Config, log: Log, candidates: seq<Provider>, checks: seq<HealthCheck>, i: nat)
    requires i < |checks| && i < |candidates|
  {
    Answer(config, Run(config, Own(LogAtCheck(log, candidates, checks, i), candidates[i].backendId)),
           checks[i].transitionAt, checks[i].answerAt)
  }

  predicate Fits(a: Attempt, candidates: seq<Provider>) {
    |a.here.checks| == |candidates| && a.chosen < |candidates|
  }

  function NoteAttempt(log: Log, candidates: seq<Provider>, a: Attempt): Log
    requires Fits(a, candidates)
  {
    var checked := NoteChecks(log, candidates, a.here.checks, |candidates|);
    var sent := NoteOthers(checked, a.here.meanwhile, |a.here.meanwhile|);
    if a.result.Failed? then Noted(sent, candidates[a.chosen].backendId, Failure(a.here.endedAt)) else sent
  }

  /** The chosen candidate passed its check, or none did. */
  predicate WellChosen(config: Config, log: Log, candidates: seq<Provider>, a: Attempt) {
    && Fits(a, candidates)
    && (PassesCheck(config, log, candidates, a.here.checks, a.chosen)
        || forall i :: 0 <= i < |candidates| ==> !PassesCheck(config, log, candidates, a.here.checks, i))
  }

  predicate AllFit(tries: Attempts, candidates: seq<Provider>) {
    tries.Tried? ==> Fits(tries.last, candidates) && AllFit(tries.before, candidates)
  }

  function NoteAll(log: Log, candidates: seq<Provider>, tries: Attempts): Log
    requires AllFit(tries, candidates)
  {
    match tries
    case Untried => log
    case Tried(before, last) => NoteAttempt(NoteAll(log, candidates, before), candidates, last)
  }

  predicate AllWellChosen(config: Config, log: Log, candidates: seq<Provider>, tries: Attempts) {
    tries.Tried? ==>
      && AllFit(tries, candidates) && AllWellChosen(config, log, candidates, tries.before)
      && WellChosen(config, NoteAll(log, candidates, tries.before), candidates, tries.last)
  }

  // ----- Counting what is recorded -----

  /** The two events that say how a request to a backend ended. */
  datatype Ending = Succeeded | FailedUpstream

  function Tally(b: BackendId, id: BackendId, e: Event, ending: Ending): nat {
    if id != b then 0
    else
      match ending
      case Succeeded => if e.Success? then 1 else 0
      case FailedUpstream => if e.Failure? then 1 else 0
  }

  /** How often requests to `b` ended like this. */
  function Recorded(log: Log, b: BackendId, ending: Ending): nat {
    if log.Nothing? then 0 else Recorded(log.before, b, ending) + Tally(b, log.backend, log.event, ending)
  }

  /** The attempts that were made on backend `b` and failed. */
  function FailedAttempts(candidates: seq<Provider>, tries: Attempts, b: BackendId): nat
    requires AllFit(tries, candidates)
  {
    if tries.Untried? then 0
    else
      FailedAttempts(candidates, tries.before, b)
      + if tries.last.result.Failed? && candidates[tries.last.chosen].backendId == b then 1 else 0
  }

  function OfOthers(others: Others, n: nat, b: BackendId, ending: Ending): nat
    requires n <= |others|
  {
    if n == 0 then 0 else OfOthers(others, n - 1, b, ending) + Tally(b, others[n - 1].0, others[n - 1].1, ending)
  }

  function AmongChecks(checks: seq<HealthCheck>, n: nat, b: BackendId, ending: Ending): nat
    requires n <= |checks|
  {
    if n == 0 then 0
    else AmongChecks(checks, n - 1, b, ending) + OfOthers(checks[n - 1].earlier, |checks[n - 1].earlier|, b, ending)
  }

  /** What other requests recorded for `b` in the course of the attempts. */
  function Foreign(tries: Attempts, b: BackendId, ending: Ending): nat {
    if tries.Untried? then 0
    else
      var here := tries.last.here;
      Foreign(tries.before, b, ending) + AmongChecks(here.checks, |here.checks|, b, ending)
      + OfOthers(here.meanwhile, |here.meanwhile|, b, ending)
  }

  lemma {:induction false} OthersRecord(log: Log, others: Others, n: nat, b: BackendId, ending: Ending)
    requires n <= |others|
    ensures Recorded(NoteOthers(log, others, n), b, ending) == Recorded(log, b, ending) + OfOthers(others, n, b, ending)
  {
    if n == 0 {
    } else {
      OthersRecord(log, others, n - 1, b, ending);
    }
  }

  /** The checks themselves record no ending. */
  lemma {:induction false} ChecksRecord(log: Log, candidates: seq<Provider>, checks: seq<HealthCheck>, n: nat,
                                        b: BackendId, ending: Ending)
    requires n <= |checks| && n <= |candidates|
    ensures Recorded(NoteChecks(log, candidates, checks, n), b, ending)
         == Recorded(log, b, ending) + AmongChecks(checks, n, b, ending)
  {
    if n == 0 {
    } else {
      var before, earlier := NoteChecks(log, candidates, checks, n - 1), checks[n - 1].earlier;
      ChecksRecord(log, candidates, checks, n - 1, b, ending);
      OthersRecord(before, earlier, |earlier|, b, ending);
    }
  }

  /** What the attempts themselves record for `b`. */
  function OwnRecord(candidates: seq<Provider>, tries: Attempts, b: BackendId, ending: Ending): nat
    requires AllFit(tries, candidates)
  {
    if ending.FailedUpstream? then FailedAttempts(candidates, tries, b) else 0
  }

  /** Whatever other requests do to the breaker, the attempts themselves record for each backend one failure for each
      of those made on it that failed, none for one that succeeded, and no success. */
  lemma {:induction false} OneFailurePerFailedAttempt(log: Log, candidates: seq<Provider>, tries: Attempts,
                                                      b: BackendId, ending: Ending)
    requires AllFit(tries, candidates)
    ensures Recorded(NoteAll(log, candidates, tries), b, ending)
         == Recorded(log, b, ending) + OwnRecord(candidates, tries, b, ending) + Foreign(tries, b, ending)
  {
    if tries.Untried? {
    } else {
      var here, before := tries.last.here, NoteAll(log, candidates, tries.before);
      OneFailurePerFailedAttempt(log, candidates, tries.before, b, ending);
      ChecksRecord(before, candidates, here.checks, |candidates|, b, ending);
      OthersRecord(NoteChecks(before, candidates, here.checks, |candidates|), here.meanwhile, |here.meanwhile|, b,
                   ending);
    }
  }

  // ----- What attempts send -----

  /** What stays the same through a request: the retry settings, the upstream's replies, the client's key, how long a
      sticky key is remembered, and the headers that are kept. */
  datatype Setting = Setting(retry: RetryConfig, reply: nat -> Reply, apiKey: string, ttl: nat, headers: Headers)

  /** All sends of the attempts, in order. */
  function SentBy(tries: Attempts): seq<Sent<Outgoing<Body>>> {
    if tries.Untried? then [] else SentBy(tries.before) + tries.last.trail.sent
  }

  /** The sticky key of an attempt, and the cache once it is resolved. */
  function StickyKey(setting: Setting, p: Provider, here: Surroundings, cache: Cache): (Cache, KeyId) {
    Resolved(cache, (setting.apiKey, p.providerId), p, here.freshKey, setting.ttl, here.resolvedAt)
  }

  /** The cache after an attempt: the key that served, if any, is stored. */
  function CacheNext(setting: Setting, p: Provider, here: Surroundings, result: KeyResult, cache: Cache): Cache {
    var resolved := StickyKey(setting, p, here, cache).0;
    if result.Served? then Stored(resolved, (setting.apiKey, p.providerId), result.key, setting.ttl, here.endedAt)
    else resolved
  }

  function CacheAfter(setting: Setting, candidates: seq<Provider>, tries: Attempts, cache: Cache): Cache
    requires AllFit(tries, candidates)
  {
    if tries.Untried? then cache
    else
      CacheNext(setting, candidates[tries.last.chosen], tries.last.here, tries.last.result,
                CacheAfter(setting, candidates, tries.before, cache))
  }

  /** The sends of an attempt are a walk over the keys of `p` that starts at the sticky key, and its result is what
      this walk gives. */
  ghost predicate Walks(setting: Setting, p: Provider, body: Body, base: nat, cache: Cache, here: Surroundings,
                        result: KeyResult, trail: Trail<Body>)
  {
    && trail.base == base
    && trail.start == StartIndex(p, Some(StickyKey(setting, p, here, cache).1))
    && Walked(p, setting.retry, setting.reply, setting.headers, body, trail, result)
  }

  ghost predicate AttemptWalks(setting: Setting, p: Provider, body: Body, base: nat, cache: Cache, a: Attempt) {
    Walks(setting, p, body, base, cache, a.here, a.result, a.trail)
  }

  /** So it is for all attempts, one after the other; the `k`-th one meets `surroundings(k)`. */
  ghost predicate AllWalk(setting: Setting, candidates: seq<Provider>, body: Body, base: nat, cache: Cache,
                          surroundings: nat -> Surroundings, tries: Attempts)
  {
    tries.Tried? ==>
      && AllFit(tries, candidates)
      && AllWalk(setting, candidates, body, base, cache, surroundings, tries.before)
      && tries.last.here == surroundings(CountTries(tries.before))
      && AttemptWalks(setting, candidates[tries.last.chosen], body, base + |SentBy(tries.before)|,
                      CacheAfter(setting, candidates, tries.before, cache), tries.last)
  }

  /** The first `n` attempts. */
  function FirstTries(tries: Attempts, n: nat): (first: Attempts)
    requires n <= CountTries(tries)
    ensures CountTries(first) == n
  {
    if CountTries(tries) == n then tries else FirstTries(tries.before, n)
  }

  lemma FirstOfBefore(tries: Attempts, n: nat)
    requires n < CountTries(tries)
    ensures FirstTries(tries, n) == FirstTries(tries.before, n)
    ensures n + 1 < CountTries(tries) ==> FirstTries(tries, n + 1) == FirstTries(tries.before, n + 1)
    ensures n + 1 == CountTries(tries) ==> FirstTries(tries, n) == tries.before && FirstTries(tries, n + 1) == tries
  {
  }

  /** The attempt after the first `n`: its walk, and its sends among all sends. */
  lemma {:induction false} NthAttempt(setting: Setting, candidates: seq<Provider>, body: Body, base: nat,
                                      cache: Cache, surroundings: nat -> Surroundings, tries: Attempts, n: nat)
    requires AllWalk(setting, candidates, body, base, cache, surroundings, tries) && n < CountTries(tries)
    ensures var earlier, a := FirstTries(tries, n), FirstTries(tries, n + 1).last;
            && AllFit(earlier, candidates) && Fits(a, candidates) && a.here == surroundings(n)
            && AttemptWalks(setting, candidates[a.chosen], body, base + |SentBy(earlier)|,
                            CacheAfter(setting, candidates, earlier, cache), a)
            && SentBy(FirstTries(tries, n + 1)) == SentBy(earlier) + a.trail.sent <= SentBy(tries)
            && (AllFailed(tries) ==> a.result.Failed?)
  {
    hide Walks, CacheAfter, Fits;
    FirstOfBefore(tries, n);
    if CountTries(tries) == n + 1 {
    } else {
      NthAttempt(setting, candidates, body, base, cache, surroundings, tries.before, n);
    }
  }

  /** The attempt that served was answered by the last of all sends, which names the backend and the key. */
  lemma PoolAnswered(setting: Setting, candidates: seq<Provider>, body: Body, base: nat, cache: Cache,
                     surroundings: nat -> Surroundings, tries: Attempts)
    requires AllWalk(setting, candidates, body, base, cache, surroundings, tries)
    requires tries.Tried? && tries.last.result.Served? && tries.last.chosen < |candidates|
    ensures SentBy(tries) != []
    ensures var request, result := SentBy(tries)[|SentBy(tries)| - 1].request, tries.last.result;
            && request.backend == candidates[tries.last.chosen].backendId && request.key == result.key
            && setting.reply(base + |SentBy(tries)| - 1) == Status(result.code)
            && result.code !in setting.retry.retryable && !(500 <= result.code < 600) && result.code != 429
  {
    hide Walked, IsFor, CacheAfter, StickyKey, StartIndex;
    var a := tries.last;
    var index := ServedByLastSend(candidates[a.chosen], setting.retry, setting.reply, setting.headers, body, a.trail,
                                  a.result.key, a.result.code);
  }

  /** If no attempt served, each of them sent on the turn of every usable key of its candidate, and the last reply to
      that key was an error, a status that triggers retries, a server error or 429. The send is number `m` of all. */
  lemma {:induction false} FailedPoolTriedAll(setting: Setting, candidates: seq<Provider>, body: Body, base: nat,
                                              cache: Cache, surroundings: nat -> Surroundings, tries: Attempts,
                                              n: nat, index: nat) returns (m: nat)
    requires AllWalk(setting, candidates, body, base, cache, surroundings, tries) && n < CountTries(tries)
    requires AllFailed(tries)
    requires var a := FirstTries(tries, n + 1).last;
             && a.chosen < |candidates| && index < |candidates[a.chosen].keys|
             && candidates[a.chosen].keys[index].secret.Some?
    ensures |SentBy(FirstTries(tries, n))| <= m < |SentBy(FirstTries(tries, n + 1))| <= |SentBy(tries)|
    ensures IsFor(candidates[FirstTries(tries, n + 1).last.chosen], index, setting.headers, body, SentBy(tries)[m])
    ensures var trail, first := FirstTries(tries, n + 1).last.trail, |SentBy(FirstTries(tries, n))|;
            && |trail.offsets| == |trail.sent|
            && forall k :: m - first < k < |trail.sent| ==> trail.offsets[k] != trail.offsets[m - first]
    ensures match setting.reply(base + m)
            case Broken(_) => true
            case Status(code) => code in setting.retry.retryable || 500 <= code < 600 || code == 429
  {
    hide Walked, IsFor, CacheAfter, StickyKey;
    NthAttempt(setting, candidates, body, base, cache, surroundings, tries, n);
    var earlier, a := FirstTries(tries, n), FirstTries(tries, n + 1).last;
    var k := FailedTriedAll(candidates[a.chosen], setting.retry, setting.reply, setting.headers, body, a.trail,
                            a.result.kind, index);
    m := |SentBy(earlier)| + k;
    assert (SentBy(earlier) + a.trail.sent)[m] == a.trail.sent[k];
  }

  /** An attempt for which the cache holds a live mapping to a usable key of its candidate sends with that key first. */
  lemma {:induction false} StickyKeyFirst(setting: Setting, candidates: seq<Provider>, body: Body, base: nat,
                                          cache: Cache, surroundings: nat -> Surroundings, tries: Attempts,
                                          n: nat, index: nat)
    requires AllWalk(setting, candidates, body, base, cache, surroundings, tries) && n < CountTries(tries)
    requires var earlier, a := FirstTries(tries, n), FirstTries(tries, n + 1).last;
             && AllFit(earlier, candidates) && a.chosen < |candidates| && index < |candidates[a.chosen].keys|
             && var p := candidates[a.chosen];
                && p.keys[index].secret.Some? && (forall i :: 0 <= i < index ==> p.keys[i].id != p.keys[index].id)
                && Lookup(CacheAfter(setting, candidates, earlier, cache), (setting.apiKey, p.providerId),
                          surroundings(n).resolvedAt) == Some(p.keys[index].id)
    ensures |SentBy(FirstTries(tries, n))| < |SentBy(tries)|
    ensures var p := candidates[FirstTries(tries, n + 1).last.chosen];
            && IsFor(p, index, setting.headers, body, SentBy(tries)[|SentBy(FirstTries(tries, n))|])
            && SentBy(tries)[|SentBy(FirstTries(tries, n))|].request.key == p.keys[index].id
  {
    hide Walked, IsFor, CacheAfter, Resolved, Lookup, StartIndex;
    NthAttempt(setting, candidates, body, base, cache, surroundings, tries, n);
    var earlier, a := FirstTries(tries, n), FirstTries(tries, n + 1).last;
    var p := candidates[a.chosen];
    ResolvesTo(CacheAfter(setting, candidates, earlier, cache), (setting.apiKey, p.providerId), p, a.here.freshKey,
               setting.ttl, a.here.resolvedAt);
    StartsAt(p, index);
    StartsWith(p, setting.retry, setting.reply, setting.headers, body, a.trail, a.result);
    assert (SentBy(earlier) + a.trail.sent)[|SentBy(earlier)|] == a.trail.sent[0];
    IsForKey(p, index, setting.headers, body, a.trail.sent[0]);
  }

  // ----- The code -----

  /** Other requests use the breaker. */
  method LetOthersRun(breaker: CircuitBreaker, others: Others)
    requires breaker.Valid()
    modifies breaker, breaker.circuits.Values
    ensures breaker.Valid() && fresh(breaker.circuits.Values - old(breaker.circuits.Values))
    ensures breaker.log == NoteOthers(old(breaker.log), others, |others|)
  {
    hide CircuitBreaker.Valid;
    for n := 0 to |others|
      invariant breaker.Valid() && fresh(breaker.circuits.Values - old(breaker.circuits.Values))
      invariant breaker.log == NoteOthers(old(breaker.log), others, n)
    {
      match others[n].1 {
        case Success => breaker.RecordSuccess(others[n].0);
        case Failure(at) => breaker.RecordFailure(others[n].0, at);
        case Check(transitionAt, answerAt) =>
          var _ := breaker.IsBackendHealthy(others[n].0, transitionAt, answerAt);
      }
    }
  }

  /** The health checks of one attempt, with other requests in between; `healthy` lists the candidates that passed. */
  method CheckHealth(breaker: CircuitBreaker, candidates: seq<Provider>, checks: seq<HealthCheck>)
    returns (healthy: seq<nat>)
    requires breaker.Valid() && |checks| == |candidates|
    modifies breaker, breaker.circuits.Values
    ensures breaker.Valid() && fresh(breaker.circuits.Values - old(breaker.circuits.Values))
    ensures breaker.log == NoteChecks(old(breaker.log), candidates, checks, |candidates|)
    ensures forall i :: i in healthy <==>
              0 <= i < |candidates| && PassesCheck(breaker.config, old(breaker.log), candidates, checks, i)
  {
    hide CircuitBreaker.Valid;
    healthy := [];
    for n := 0 to |candidates|
      invariant breaker.Valid() && fresh(breaker.circuits.Values - old(breaker.circuits.Values))
      invariant breaker.log == NoteChecks(old(breaker.log), candidates, checks, n)
      invariant forall i :: i in healthy <==>
                  0 <= i < n && PassesCheck(breaker.config, old(breaker.log), candidates, checks, i)
    {
      LetOthersRun(breaker, checks[n].earlier);
      var ok := breaker.IsBackendHealthy(candidates[n].backendId, checks[n].transitionAt, checks[n].answerAt);
      if ok {
        healthy := healthy + [n];
      }
    }
  }

  /** Check everybody and pick at random among the healthy ones, or among all if there are none. */
  method ChooseBackend(breaker: CircuitBreaker, candidates: seq<Provider>, checks: seq<HealthCheck>)
    returns (chosen: nat)
    requires breaker.Valid() && candidates != [] && |checks| == |candidates|
    modifies breaker, breaker.circuits.Values
    ensures breaker.Valid() && fresh(breaker.circuits.Values - old(breaker.circuits.Values))
    ensures breaker.log == NoteChecks(old(breaker.log), candidates, checks, |candidates|)
    ensures chosen < |candidates|
    ensures PassesCheck(breaker.config, old(breaker.log), candidates, checks, chosen)
            || forall i :: 0 <= i < |candidates| ==>
                 !PassesCheck(breaker.config, old(breaker.log), candidates, checks, i)
  {
    hide CircuitBreaker.Valid;
    var healthy := CheckHealth(breaker, candidates, checks);
    if healthy == [] {
      assert forall i :: 0 <= i < |candidates| ==> i !in healthy;
      chosen :| 0 <= chosen < |candidates|;
    } else {
      var pick :| 0 <= pick < |healthy|;
      chosen := healthy[pick];
      assert chosen in healthy;
    }
  }

  /** Send through one backend, starting at the sticky key, and remember the key that served the request. */
  method SendThrough(cache: StickyTargetKeyCache, upstream: Upstream<Outgoing<Body>>, retry: RetryConfig,
                     provider: Provider, apiKey: string, headers: HeaderList, body: Body, here: Surroundings)
    returns (result: KeyResult, ghost trail: Trail<Body>)
    requires retry.maxRetries <= 64
    modifies cache, upstream
    ensures upstream.log == old(upstream.log) + trail.sent
    ensures var setting := Setting(retry, upstream.reply, apiKey, cache.ttl, Filtered(headers));
            && Walks(setting, provider, body, |old(upstream.log)|, old(cache.View()), here, result, trail)
            && cache.View() == CacheNext(setting, provider, here, result, old(cache.View()))
    ensures Extends(old(upstream.log), upstream.log, provider, Filtered(headers), body)
    ensures |upstream.log| <= |old(upstream.log)| + |provider.keys| * (retry.maxRetries + 1)
    ensures result.Served? ==>
              && !RetryableStatus(result.code)
              && Remembers(cache.View(), (apiKey, provider.providerId), result.key, here.endedAt, cache.ttl)
  {
    hide WalkKeys, VisitKey, TotalSends, Resolved, StartIndex, From, Filtered, Walked;
    var slot := (apiKey, provider.providerId);
    var preferred := cache.ResolveStickyTargetKey(slot, provider, here.freshKey, here.resolvedAt);
    KeyFailoverOrder(provider, retry, upstream.reply, Some(preferred), |upstream.log|);
    WalkSends(provider, retry, upstream.reply, StartIndex(provider, Some(preferred)), 0, |upstream.log|, Network);
    FilteredTwice(headers);
    var filtered := FilterClientHeaders(headers);
    result, trail := ProxyRequest(provider, Some(preferred), retry, upstream, filtered, body, here.draws);
    if result.Served? {
      cache.Set(slot, result.key, here.endedAt);
    }
  }

  /** The loop body: choose, send, and record. */
  method AttemptOnce(breaker: CircuitBreaker, cache: StickyTargetKeyCache, upstream: Upstream<Outgoing<Body>>,
                     retry: RetryConfig, candidates: seq<Provider>, apiKey: string, headers: HeaderList, body: Body,
                     here: Surroundings)
    returns (chosen: nat, result: KeyResult, ghost trail: Trail<Body>)
    requires breaker.Valid() && candidates != [] && retry.maxRetries <= 64 && |here.checks| == |candidates|
    modifies breaker, breaker.circuits.Values, cache, upstream
    ensures breaker.Valid() && fresh(breaker.circuits.Values - old(breaker.circuits.Values))
    ensures var a := Attempt(here, chosen, result, trail);
            && Fits(a, candidates) && WellChosen(breaker.config, old(breaker.log), candidates, a)
            && breaker.log == NoteAttempt(old(breaker.log), candidates, a)
    ensures upstream.log == old(upstream.log) + trail.sent
    ensures var setting := Setting(retry, upstream.reply, apiKey, cache.ttl, Filtered(headers));
            && Walks(setting, candidates[chosen], body, |old(upstream.log)|, old(cache.View()), here, result, trail)
            && cache.View() == CacheNext(setting, candidates[chosen], here, result, old(cache.View()))
    ensures Extends(old(upstream.log), upstream.log, candidates[chosen], Filtered(headers), body)
    ensures |upstream.log| <= |old(upstream.log)| + |candidates[chosen].keys| * (retry.maxRetries + 1)
    ensures result.Served? ==>
              && !RetryableStatus(result.code)
              && Remembers(cache.View(), (apiKey, candidates[chosen].providerId), result.key, here.endedAt, cache.ttl)
  {
    hide CircuitBreaker.Valid, Walks, CacheNext, Remembers, Extends, Filtered;
    chosen := ChooseBackend(breaker, candidates, here.checks);
    result, trail := SendThrough(cache, upstream, retry, candidates[chosen], apiKey, headers, body, here);
    LetOthersRun(breaker, here.meanwhile);
    match result {
      case Served(_, code) =>
        if RetryableStatus(code) {
          // A response that reaches this point is never a retryable one.
          assert false;
        }
      case Failed(_) =>
        breaker.RecordFailure(candidates[chosen].backendId, here.endedAt);
    }
  }

  datatype PoolResult = FromBackend(backend: nat, key: KeyId, code: nat) | NoBackends | UpstreamFailed(kind: ErrorKind)

  /** A send to one of the candidates. */
  ghost predicate FromPool(candidates: seq<Provider>, headers: Headers, body: Body, sent: Sent<Outgoing<Body>>) {
    exists c :: 0 <= c < |candidates| && From(candidates[c], headers, body, sent)
  }

  ghost predicate ExtendsPool(before: seq<Sent<Outgoing<Body>>>, after: seq<Sent<Outgoing<Body>>>,
                              candidates: seq<Provider>, headers: Headers, body: Body) {
    before <= after && forall i :: |before| <= i < |after| ==> FromPool(candidates, headers, body, after[i])
  }

  lemma ExtendsMore(a: seq<Sent<Outgoing<Body>>>, b: seq<Sent<Outgoing<Body>>>, c: seq<Sent<Outgoing<Body>>>,
                    candidates: seq<Provider>, chosen: nat, headers: Headers, body: Body)
    requires chosen < |candidates|
    requires ExtendsPool(a, b, candidates, headers, body) && Extends(b, c, candidates[chosen], headers, body)
    ensures ExtendsPool(a, c, candidates, headers, body)
  {
    forall i | |a| <= i < |c| ensures FromPool(candidates, headers, body, c[i]) {
      if i < |b| { assert c[i] == b[i]; } else { assert From(candidates[chosen], headers, body, c[i]); }
    }
  }

  function MaxKeys(candidates: seq<Provider>): (n: nat)
    ensures forall i :: 0 <= i < |candidates| ==> |candidates[i].keys| <= n
  {
    if candidates == [] then 0
    else
      var rest := MaxKeys(candidates[1..]);
      if |candidates[0].keys| >= rest then |candidates[0].keys| else rest
  }

  /** The most sends that trying a pool can take. */
  function PoolBudget(candidates: seq<Provider>, retry: RetryConfig): nat {
    |candidates| * (MaxKeys(candidates) * (retry.maxRetries + 1))
  }

  lemma TimesMonotone(a: nat, b: nat, m: nat)
    requires a <= b
    ensures a * m <= b * m
  {
  }

  /** One more attempt stays within the budget. */
  lemma BudgetStep(candidates: seq<Provider>, retry: RetryConfig, chosen: nat, attempts: nat)
    requires chosen < |candidates| && 1 <= attempts <= |candidates|
    ensures var perTry := MaxKeys(candidates) * (retry.maxRetries + 1);
            && (attempts - 1) * perTry + |candidates[chosen].keys| * (retry.maxRetries + 1) <= attempts * perTry
            && attempts * perTry <= PoolBudget(candidates, retry)
  {
    var perTry := MaxKeys(candidates) * (retry.maxRetries + 1);
    TimesMonotone(|candidates[chosen].keys|, MaxKeys(candidates), retry.maxRetries + 1);
    assert attempts * perTry == (attempts - 1) * perTry + perTry;
    TimesMonotone(attempts, |candidates|, perTry);
  }

  /** What trying a pool comes to: at most as many attempts as candidates, each well chosen, up to the first that
      serves the request. */
  ghost predicate PoolOutcome(config: Config, log: Log, candidates: seq<Provider>, r: PoolResult, tries: Attempts) {
    && AllFit(tries, candidates) && AllWellChosen(config, log, candidates, tries) && CountTries(tries) <= |candidates|
    && (r.NoBackends? <==> candidates == [])
    && (r.UpstreamFailed? ==>
          tries.Tried? && CountTries(tries) == |candidates| && AllFailed(tries) && tries.last.result == Failed(r.kind))
    && (r.FromBackend? ==>
          && tries.Tried? && AllFailed(tries.before) && tries.last.result == Served(r.key, r.code)
          && r.backend == candidates[tries.last.chosen].backendId && !RetryableStatus(r.code))
  }

  /** The breaker, the log of sends and the cache are those after the attempts so far. */
  ghost predicate Underway(config: Config, log: Log, log': Log, setting: Setting, candidates: seq<Provider>, body: Body,
                           sent: seq<Sent<Outgoing<Body>>>, sent': seq<Sent<Outgoing<Body>>>, cache: Cache,
                           cache': Cache, surroundings: nat -> Surroundings, tries: Attempts)
  {
    && AllFit(tries, candidates) && AllWellChosen(config, log, candidates, tries)
    && log' == NoteAll(log, candidates, tries)
    && AllWalk(setting, candidates, body, |sent|, cache, surroundings, tries)
    && cache' == CacheAfter(setting, candidates, tries, cache)
    && sent' == sent + SentBy(tries) && ExtendsPool(sent, sent', candidates, setting.headers, body)
    && |sent'| <= |sent| + CountTries(tries) * (MaxKeys(candidates) * (setting.retry.maxRetries + 1))
  }

  lemma UnderwayStart(config: Config, log: Log, setting: Setting, candidates: seq<Provider>, body: Body,
                      sent: seq<Sent<Outgoing<Body>>>, cache: Cache, surroundings: nat -> Surroundings)
    ensures Underway(config, log, log, setting, candidates, body, sent, sent, cache, cache, surroundings, Untried)
  {
    assert sent + [] == sent;
  }

  lemma UnderwayNext(config: Config, log: Log, log1: Log, log2: Log, setting: Setting, candidates: seq<Provider>,
                     body: Body, sent: seq<Sent<Outgoing<Body>>>, sent1: seq<Sent<Outgoing<Body>>>,
                     sent2: seq<Sent<Outgoing<Body>>>, cache: Cache, cache1: Cache, cache2: Cache,
                     surroundings: nat -> Surroundings, tries: Attempts, a: Attempt)
    requires Underway(config, log, log1, setting, candidates, body, sent, sent1, cache, cache1, surroundings, tries)
    requires CountTries(tries) < |candidates| && a.here == surroundings(CountTries(tries))
    requires Fits(a, candidates) && WellChosen(config, log1, candidates, a) && log2 == NoteAttempt(log1, candidates, a)
    requires sent2 == sent1 + a.trail.sent && Extends(sent1, sent2, candidates[a.chosen], setting.headers, body)
    requires |sent2| <= |sent1| + |candidates[a.chosen].keys| * (setting.retry.maxRetries + 1)
    requires Walks(setting, candidates[a.chosen], body, |sent1|, cache1, a.here, a.result, a.trail)
    requires cache2 == CacheNext(setting, candidates[a.chosen], a.here, a.result, cache1)
    ensures Underway(config, log, log2, setting, candidates, body, sent, sent2, cache, cache2, surroundings,
                     Tried(tries, a))
  {
    hide WellChosen, NoteAttempt, Walks, CacheNext, Extends, ExtendsPool, MaxKeys, PoolBudget;
    ExtendsMore(sent, sent1, sent2, candidates, a.chosen, setting.headers, body);
    BudgetStep(candidates, setting.retry, a.chosen, CountTries(tries) + 1);
    assert sent + (SentBy(tries) + a.trail.sent) == (sent + SentBy(tries)) + a.trail.sent;
  }

  lemma UnderwayEnds(config: Config, log: Log, log': Log, setting: Setting, candidates: seq<Provider>, body: Body,
                     sent: seq<Sent<Outgoing<Body>>>, sent': seq<Sent<Outgoing<Body>>>, cache: Cache,
                     cache': Cache, surroundings: nat -> Surroundings, tries: Attempts)
    requires Underway(config, log, log', setting, candidates, body, sent, sent', cache, cache', surroundings, tries)
    requires CountTries(tries) <= |candidates|
    ensures AllFit(tries, candidates) && AllWellChosen(config, log, candidates, tries)
    ensures log' == NoteAll(log, candidates, tries)
    ensures AllWalk(setting, candidates, body, |sent|, cache, surroundings, tries)
    ensures cache' == CacheAfter(setting, candidates, tries, cache)
    ensures sent' == sent + SentBy(tries) && ExtendsPool(sent, sent', candidates, setting.headers, body)
    ensures |sent'| <= |sent| + PoolBudget(candidates, setting.retry)
  {
    hide AllWellChosen, NoteAll, CacheAfter, ExtendsPool, MaxKeys, AllWalk, AllFit, SentBy;
    TimesMonotone(CountTries(tries), |candidates|, MaxKeys(candidates) * (setting.retry.maxRetries + 1));
  }

  lemma UnderwayServes(config: Config, log: Log, log': Log, setting: Setting, candidates: seq<Provider>, body: Body,
                       sent: seq<Sent<Outgoing<Body>>>, sent': seq<Sent<Outgoing<Body>>>, cache: Cache,
                       cache': Cache, surroundings: nat -> Surroundings, tries: Attempts)
    requires Underway(config, log, log', setting, candidates, body, sent, sent', cache, cache', surroundings, tries)
    requires tries.Tried? && tries.last.result.Served? && tries.last.chosen < |candidates|
    ensures SentBy(tries) != [] && setting.reply(|sent'| - 1) == Status(tries.last.result.code)
    ensures sent'[|sent'| - 1].request.backend == candidates[tries.last.chosen].backendId
    ensures sent'[|sent'| - 1].request.key == tries.last.result.key
    ensures var code := tries.last.result.code;
            code !in setting.retry.retryable && !(500 <= code < 600) && code != 429
  {
    hide AllWellChosen, NoteAll, CacheAfter, ExtendsPool, MaxKeys, AllWalk, AllFit, SentBy;
    PoolAnswered(setting, candidates, body, |sent|, cache, surroundings, tries);
  }

  /** try_target_pool */
  method TryTargetPool(breaker: CircuitBreaker, cache: StickyTargetKeyCache, upstream: Upstream<Outgoing<Body>>,
                       retry: RetryConfig, candidates: seq<Provider>, apiKey: string, headers: HeaderList, body: Body,
                       surroundings: nat -> Surroundings)
    returns (r: PoolResult, ghost tries: Attempts)
    requires breaker.Valid() && retry.maxRetries <= 64
    requires forall n :: |surroundings(n).checks| == |candidates|
    modifies breaker, breaker.circuits.Values, cache, upstream
    ensures breaker.Valid() && fresh(breaker.circuits.Values - old(breaker.circuits.Values))
    ensures PoolOutcome(breaker.config, old(breaker.log), candidates, r, tries)
    ensures breaker.log == NoteAll(old(breaker.log), candidates, tries)
    ensures r.FromBackend? ==>
              Remembers(cache.View(), (apiKey, candidates[tries.last.chosen].providerId), r.key,
                        surroundings(CountTries(tries) - 1).endedAt, cache.ttl)
    ensures upstream.log == old(upstream.log) + SentBy(tries)
    ensures var setting := Setting(retry, upstream.reply, apiKey, cache.ttl, Filtered(headers));
            && AllWalk(setting, candidates, body, |old(upstream.log)|, old(cache.View()), surroundings, tries)
            && cache.View() == CacheAfter(setting, candidates, tries, old(cache.View()))
    ensures r.FromBackend? ==>
              && SentBy(tries) != [] && upstream.reply(|upstream.log| - 1) == Status(r.code)
              && upstream.log[|upstream.log| - 1].request.backend == r.backend
              && upstream.log[|upstream.log| - 1].request.key == r.key
              && r.code !in retry.retryable && !(500 <= r.code < 600) && r.code != 429
    ensures ExtendsPool(old(upstream.log), upstream.log, candidates, Filtered(headers), body)
    ensures |upstream.log| <= |old(upstream.log)| + PoolBudget(candidates, retry)
  {
    hide CircuitBreaker.Valid, WellChosen, NoteAttempt, ExtendsPool, Extends, PoolBudget, Remembers, Walks, Filtered;
    hide CacheNext, Underway, AllWalk, NoteAll, AllWellChosen, CacheAfter, SentBy, AllFit;
    ghost var config, log, sent, view := breaker.config, breaker.log, upstream.log, cache.View();
    ghost var setting := Setting(retry, upstream.reply, apiKey, cache.ttl, Filtered(headers));
    tries := Untried;
    UnderwayStart(config, log, setting, candidates, body, sent, view, surroundings);
    if candidates == [] {
      UnderwayEnds(config, log, log, setting, candidates, body, sent, sent, view, view, surroundings, tries);
      return NoBackends, tries;
    }
    var attempts := 0;
    while true
      invariant attempts == CountTries(tries) < |candidates| && AllFailed(tries)
      invariant breaker.Valid() && fresh(breaker.circuits.Values - old(breaker.circuits.Values))
      invariant Underway(config, log, breaker.log, setting, candidates, body, sent, upstream.log, view, cache.View(),
                         surroundings, tries)
      decreases |candidates| - attempts
    {
      ghost var log1, sent1, view1 := breaker.log, upstream.log, cache.View();
      var chosen, result;
      ghost var trail;
      chosen, result, trail := AttemptOnce(breaker, cache, upstream, retry, candidates, apiKey, headers, body,
                                           surroundings(attempts));
      ghost var a := Attempt(surroundings(attempts), chosen, result, trail);
      UnderwayNext(config, log, log1, breaker.log, setting, candidates, body, sent, sent1, upstream.log, view, view1,
                   cache.View(), surroundings, tries, a);
      attempts := attempts + 1;
      tries := Tried(tries, a);
      UnderwayEnds(config, log, breaker.log, setting, candidates, body, sent, upstream.log, view, cache.View(),
                   surroundings, tries);
      match result {
        case Served(key, code) =>
          UnderwayServes(config, log, breaker.log, setting, candidates, body, sent, upstream.log, view, cache.View(),
                         surroundings, tries);
          return FromBackend(candidates[chosen].backendId, key, code), tries;
        case Failed(kind) =>
          if attempts < |candidates| {
            continue;
          }
          return UpstreamFailed(kind), tries;
      }
    }
  }
}
