/** The target loop of the proxy handler: each target in turn, until one of their pools serves the request. */
module ProxyHandler {
  import opened Wrappers
  import opened AuthHeaders
  import opened CircuitBreaker
  import opened Circuit
  import opened HttpClient
  import opened KeyFailover
  import opened ProxyProvider
  import opened StickyCache
  import opened RequestBody
  import opened PoolFailover
  import opened Registry
  import opened ModelResolver

  /** The pool of the `i`-th target in the registry that is current when the target's turn comes. */
  function PoolFor(registry: nat -> Snapshot, targets: seq<Target>, i: nat): seq<Provider>
    requires i < |targets|
  {
    FindBackends(registry(i), targets[i].providerId, targets[i].targetModel)
  }

  /** The most sends that the first `n` targets can take. */
  function Budget(registry: nat -> Snapshot, targets: seq<Target>, retry: RetryConfig, n: nat): nat
    requires n <= |targets|
  {
    if n == 0 then 0 else Budget(registry, targets, retry, n - 1) + PoolBudget(PoolFor(registry, targets, n - 1), retry)
  }

  lemma {:induction false} BudgetGrows(registry: nat -> Snapshot, targets: seq<Target>, retry: RetryConfig,
                                       m: nat, n: nat)
    requires m <= n <= |targets|
    ensures Budget(registry, targets, retry, m) <= Budget(registry, targets, retry, n)
  {
    if m == n {
    } else {
      BudgetGrows(registry, targets, retry, m, n - 1);
    }
  }

  // ----- The course of a request over its targets -----

  /** What became of the targets that were tried, in turn, and the attempts made for each. */
  datatype Course = NoTarget | AfterTarget(before: Course, result: PoolResult, tries: Attempts)

  function Count(course: Course): nat {
    if course.NoTarget? then 0 else Count(course.before) + 1
  }

  /** The pool that the last target of the course was tried on. */
  function LastPool(registry: nat -> Snapshot, targets: seq<Target>, course: Course): seq<Provider>
    requires course.AfterTarget? && Count(course) <= |targets|
  {
    PoolFor(registry, targets, Count(course.before))
  }

  predicate CourseFits(registry: nat -> Snapshot, targets: seq<Target>, course: Course) {
    course.AfterTarget? ==>
      && Count(course) <= |targets| && CourseFits(registry, targets, course.before)
      && AllFit(course.tries, LastPool(registry, targets, course))
  }

  /** The breaker's log after the course. */
  function NoteCourse(log: Log, registry: nat -> Snapshot, targets: seq<Target>, course: Course): Log
    requires CourseFits(registry, targets, course)
  {
    match course
    case NoTarget => log
    case AfterTarget(before, _, tries) =>
      NoteAll(NoteCourse(log, registry, targets, before), LastPool(registry, targets, course), tries)
  }

  predicate HasServed(course: Course) {
    course.AfterTarget? && course.result.FromBackend?
  }

  /** Each target is tried on its own pool, and only after every target before it has failed. */
  ghost predicate InTurn(config: Config, log: Log, registry: nat -> Snapshot, targets: seq<Target>, course: Course) {
    course.AfterTarget? ==>
      && CourseFits(registry, targets, course) && InTurn(config, log, registry, targets, course.before)
      && !HasServed(course.before)
      && PoolOutcome(config, NoteCourse(log, registry, targets, course.before), LastPool(registry, targets, course),
                     course.result, course.tries)
  }

  /** The attempts of the course that were made on backend `b` and failed. */
  function FailedTries(registry: nat -> Snapshot, targets: seq<Target>, course: Course, b: BackendId): nat
    requires CourseFits(registry, targets, course)
  {
    if course.NoTarget? then 0
    else
      FailedTries(registry, targets, course.before, b)
      + FailedAttempts(LastPool(registry, targets, course), course.tries, b)
  }

  function ForeignIn(course: Course, b: BackendId, ending: Ending): nat {
    if course.NoTarget? then 0 else ForeignIn(course.before, b, ending) + Foreign(course.tries, b, ending)
  }

  /** Over all its targets, a request records for each backend one failure for each attempt made on it that failed
      and nothing else, whatever other requests record in between. */
  lemma {:induction false} CourseRecords(log: Log, registry: nat -> Snapshot, targets: seq<Target>, course: Course,
                                         b: BackendId)
    requires CourseFits(registry, targets, course)
    ensures var after := NoteCourse(log, registry, targets, course);
            && Recorded(after, b, FailedUpstream)
               == Recorded(log, b, FailedUpstream) + FailedTries(registry, targets, course, b)
                  + ForeignIn(course, b, FailedUpstream)
            && Recorded(after, b, Succeeded) == Recorded(log, b, Succeeded) + ForeignIn(course, b, Succeeded)
  {
    if course.NoTarget? {
    } else {
      CourseRecords(log, registry, targets, course.before, b);
      var before := NoteCourse(log, registry, targets, course.before);
      OneFailurePerFailedAttempt(before, LastPool(registry, targets, course), course.tries, b, FailedUpstream);
      OneFailurePerFailedAttempt(before, LastPool(registry, targets, course), course.tries, b, Succeeded);
    }
  }

  // ----- What is sent -----

  /** All sends of the course, in order. */
  function SendsOf(course: Course): seq<Sent<Outgoing<Body>>> {
    if course.NoTarget? then [] else SendsOf(course.before) + SentBy(course.tries)
  }

  ghost predicate SendsFor(pool: seq<Provider>, target: Target, retry: RetryConfig, headers: Headers, base: Body,
                           sent: seq<Sent<Outgoing<Body>>>)
  {
    var body := RewriteModel(base, target.targetModel);
    && body.Some? && |sent| <= PoolBudget(pool, retry)
    && forall i :: 0 <= i < |sent| ==> FromPool(pool, headers, body.value, sent[i])
  }

  /** What is sent for a target goes to its own pool, with the request's headers and the target's model. */
  ghost predicate CourseSends(registry: nat -> Snapshot, targets: seq<Target>, retry: RetryConfig, headers: Headers,
                              base: Body, course: Course)
  {
    course.AfterTarget? ==>
      && Count(course) <= |targets| && CourseSends(registry, targets, retry, headers, base, course.before)
      && SendsFor(LastPool(registry, targets, course), targets[Count(course) - 1], retry, headers, base,
                  SentBy(course.tries))
  }

  lemma LastWithinBudget(registry: nat -> Snapshot, targets: seq<Target>, retry: RetryConfig,
                         headers: Headers, base: Body, course: Course)
    requires course.AfterTarget? && CourseSends(registry, targets, retry, headers, base, course)
    ensures |SentBy(course.tries)| <= PoolBudget(LastPool(registry, targets, course), retry)
  {
  }

  lemma {:induction false} SendsBound(registry: nat -> Snapshot, targets: seq<Target>, retry: RetryConfig,
                                      headers: Headers, base: Body, course: Course)
    requires Count(course) <= |targets| && CourseSends(registry, targets, retry, headers, base, course)
    ensures |SendsOf(course)| <= Budget(registry, targets, retry, Count(course))
  {
    if course.NoTarget? {
    } else {
      hide SendsFor, PoolBudget;
      SendsBound(registry, targets, retry, headers, base, course.before);
      assert |SentBy(course.tries)| <= PoolBudget(LastPool(registry, targets, course), retry) by {
        LastWithinBudget(registry, targets, retry, headers, base, course);
      }
    }
  }

  /** The target that send `j` was made for. */
  lemma {:induction false} TargetOfSend(registry: nat -> Snapshot, targets: seq<Target>, retry: RetryConfig,
                                        headers: Headers, base: Body, course: Course, j: nat) returns (i: nat)
    requires Count(course) <= |targets| && CourseSends(registry, targets, retry, headers, base, course)
    requires j < |SendsOf(course)|
    ensures i < Count(course) && RewriteModel(base, targets[i].targetModel).Some?
    ensures FromPool(PoolFor(registry, targets, i), headers, RewriteModel(base, targets[i].targetModel).value,
                     SendsOf(course)[j])
  {
    hide FromPool, PoolFor, RewriteModel, PoolBudget;
    var earlier := SendsOf(course.before);
    if j < |earlier| {
      i := TargetOfSend(registry, targets, retry, headers, base, course.before, j);
    } else {
      i := Count(course.before);
      assert SendsOf(course)[j] == SentBy(course.tries)[j - |earlier|];
    }
  }

  // ----- The course as it shows on the log of sends -----

  /** The cache after the course. */
  function CacheOf(setting: Setting, registry: nat -> Snapshot, targets: seq<Target>, cache: Cache, course: Course)
    : Cache
    requires CourseFits(registry, targets, course)
  {
    if course.NoTarget? then cache
    else
      CacheAfter(setting, LastPool(registry, targets, course), course.tries,
                 CacheOf(setting, registry, targets, cache, course.before))
  }

  /** What the attempts for target `i` meet. */
  function Around(surroundings: (nat, nat) -> Surroundings, i: nat): nat -> Surroundings {
    (k: nat) => surroundings(i, k)
  }

  /** The attempts for each target are walks over the keys of its pool, with the body rewritten for it; the sends of the
      course begin at position `first` of the log. */
  ghost predicate CourseWalks(setting: Setting, registry: nat -> Snapshot, targets: seq<Target>, base: Body, first: nat,
                              cache: Cache, surroundings: (nat, nat) -> Surroundings, course: Course)
  {
    course.AfterTarget? ==>
      && CourseFits(registry, targets, course)
      && CourseWalks(setting, registry, targets, base, first, cache, surroundings, course.before)
      && var i, body := Count(course.before), RewriteModel(base, targets[Count(course.before)].targetModel);
         && body.Some?
         && AllWalk(setting, LastPool(registry, targets, course), body.value, first + |SendsOf(course.before)|,
                    CacheOf(setting, registry, targets, cache, course.before), Around(surroundings, i),
                    course.tries)
  }

  /** The first `n` targets of the course. */
  function FirstTargets(course: Course, n: nat): (part: Course)
    requires n <= Count(course)
    ensures Count(part) == n
  {
    if Count(course) == n then course else FirstTargets(course.before, n)
  }

  /** Target `i` of the course, after the ones before it, and its sends among all sends. */
  lemma {:induction false} NthTarget(setting: Setting, config: Config, log: Log, registry: nat -> Snapshot,
                                     targets: seq<Target>, base: Body, first: nat, cache: Cache,
                                     surroundings: (nat, nat) -> Surroundings, course: Course, i: nat)
    requires i < Count(course) <= |targets|
    requires CourseWalks(setting, registry, targets, base, first, cache, surroundings, course)
    requires InTurn(config, log, registry, targets, course)
    ensures var before, part := FirstTargets(course, i), FirstTargets(course, i + 1);
            var body := RewriteModel(base, targets[i].targetModel);
            && part.AfterTarget? && CourseFits(registry, targets, before) && body.Some?
            && AllWalk(setting, PoolFor(registry, targets, i), body.value, first + |SendsOf(before)|,
                       CacheOf(setting, registry, targets, cache, before), Around(surroundings, i), part.tries)
            && SendsOf(before) + SentBy(part.tries) <= SendsOf(course)
            && (!HasServed(course) ==> AllFailed(part.tries))
            && (!HasServed(course) ==> CountTries(part.tries) == |PoolFor(registry, targets, i)|)
  {
    hide AllWalk, CacheOf, PoolFor, RewriteModel, NoteCourse, AllWellChosen;
    if Count(course) == i + 1 {
    } else {
      NthTarget(setting, config, log, registry, targets, base, first, cache, surroundings, course.before, i);
    }
  }

  /** The attempt after the first `n` for target `i`. */
  function AttemptAt(course: Course, i: nat, n: nat): Attempt
    requires i < Count(course) && n < CountTries(FirstTargets(course, i + 1).tries)
  {
    FirstTries(FirstTargets(course, i + 1).tries, n + 1).last
  }

  /** Where the sends of this attempt begin among those of the course. */
  function AttemptStart(course: Course, i: nat, n: nat): nat
    requires i < Count(course) && n < CountTries(FirstTargets(course, i + 1).tries)
  {
    |SendsOf(FirstTargets(course, i))| + |SentBy(FirstTries(FirstTargets(course, i + 1).tries, n))|
  }

  /** The cache when this attempt looks its sticky key up. */
  function CacheAt(setting: Setting, registry: nat -> Snapshot, targets: seq<Target>, cache: Cache, course: Course,
                   i: nat, n: nat): Cache
    requires i < Count(course) <= |targets| && n < CountTries(FirstTargets(course, i + 1).tries)
    requires CourseFits(registry, targets, FirstTargets(course, i))
    requires AllFit(FirstTries(FirstTargets(course, i + 1).tries, n), PoolFor(registry, targets, i))
  {
    CacheAfter(setting, PoolFor(registry, targets, i), FirstTries(FirstTargets(course, i + 1).tries, n),
               CacheOf(setting, registry, targets, cache, FirstTargets(course, i)))
  }

  /** If no target served the request, as many attempts were made for each of them as its pool has backends, and each
      attempt sent on the turn of every usable key of its backend; the last reply to that key was an error, a status
      that triggers retries, a server error or 429. The send is number `m` of the course. */
  lemma UnservedTriedAll(setting: Setting, config: Config, log: Log, registry: nat -> Snapshot, targets: seq<Target>,
                         base: Body, first: nat, cache: Cache, surroundings: (nat, nat) -> Surroundings,
                         course: Course, i: nat, n: nat, index: nat) returns (m: nat)
    requires i < Count(course) <= |targets| && !HasServed(course)
    requires CourseWalks(setting, registry, targets, base, first, cache, surroundings, course)
    requires InTurn(config, log, registry, targets, course)
    requires n < CountTries(FirstTargets(course, i + 1).tries)
    requires var pool, chosen := PoolFor(registry, targets, i), AttemptAt(course, i, n).chosen;
             chosen < |pool| && index < |pool[chosen].keys| && pool[chosen].keys[index].secret.Some?
    ensures CountTries(FirstTargets(course, i + 1).tries) == |PoolFor(registry, targets, i)|
    ensures var start, trail := AttemptStart(course, i, n), AttemptAt(course, i, n).trail;
            && start <= m < start + |trail.sent| <= |SendsOf(course)| && |trail.offsets| == |trail.sent|
            && forall k :: m - start < k < |trail.sent| ==> trail.offsets[k] != trail.offsets[m - start]
    ensures var p, body := PoolFor(registry, targets, i)[AttemptAt(course, i, n).chosen],
                           RewriteModel(base, targets[i].targetModel);
            body.Some? && IsFor(p, index, setting.headers, body.value, SendsOf(course)[m])
    ensures match setting.reply(first + m)
            case Broken(_) => true
            case Status(code) => code in setting.retry.retryable || 500 <= code < 600 || code == 429
  {
    hide IsFor, RewriteModel, PoolFor, AllWalk, CacheOf, InTurn, CourseWalks, SendsOf, SentBy, FirstTries, AllFailed;
    hide CourseFits, AllFit, Fits, AttemptWalks;
    NthTarget(setting, config, log, registry, targets, base, first, cache, surroundings, course, i);
    var before, part := FirstTargets(course, i), FirstTargets(course, i + 1);
    var body := RewriteModel(base, targets[i].targetModel).value;
    var k := FailedPoolTriedAll(setting, PoolFor(registry, targets, i), body, first + |SendsOf(before)|,
                                CacheOf(setting, registry, targets, cache, before), Around(surroundings, i),
                                part.tries, n, index);
    NthAttempt(setting, PoolFor(registry, targets, i), body, first + |SendsOf(before)|,
               CacheOf(setting, registry, targets, cache, before), Around(surroundings, i), part.tries, n);
    m := |SendsOf(before)| + k;
    assert (SendsOf(before) + SentBy(part.tries))[m] == SentBy(part.tries)[k];
  }

  /** An attempt for which the cache holds a live mapping to a usable key of its backend sends with that key first. */
  lemma StickyKeySentFirst(setting: Setting, config: Config, log: Log, registry: nat -> Snapshot, targets: seq<Target>,
                           base: Body, first: nat, cache: Cache, surroundings: (nat, nat) -> Surroundings,
                           course: Course, i: nat, n: nat, index: nat)
    requires i < Count(course) <= |targets|
    requires CourseWalks(setting, registry, targets, base, first, cache, surroundings, course)
    requires InTurn(config, log, registry, targets, course)
    requires n < CountTries(FirstTargets(course, i + 1).tries)
    requires CourseFits(registry, targets, FirstTargets(course, i))
    requires AllFit(FirstTries(FirstTargets(course, i + 1).tries, n), PoolFor(registry, targets, i))
    requires var pool, chosen := PoolFor(registry, targets, i), AttemptAt(course, i, n).chosen;
             && chosen < |pool| && index < |pool[chosen].keys| && pool[chosen].keys[index].secret.Some?
             && var keys := pool[chosen].keys;
                && (forall k :: 0 <= k < index ==> keys[k].id != keys[index].id)
                && Lookup(CacheAt(setting, registry, targets, cache, course, i, n),
                          (setting.apiKey, pool[chosen].providerId), surroundings(i, n).resolvedAt)
                   == Some(keys[index].id)
    ensures AttemptStart(course, i, n) < |SendsOf(course)|
    ensures var p, sent := PoolFor(registry, targets, i)[AttemptAt(course, i, n).chosen],
                           SendsOf(course)[AttemptStart(course, i, n)];
            sent.request.backend == p.backendId && sent.request.key == p.keys[index].id
  {
    hide IsFor, RewriteModel, PoolFor, AllWalk, CacheOf, InTurn, CourseWalks, Lookup, CacheAfter, SendsOf, SentBy;
    hide FirstTries, AllFailed, CourseFits, AllFit, Fits;
    NthTarget(setting, config, log, registry, targets, base, first, cache, surroundings, course, i);
    var before, part := FirstTargets(course, i), FirstTargets(course, i + 1);
    var pool, body := PoolFor(registry, targets, i), RewriteModel(base, targets[i].targetModel).value;
    StickyKeyFirst(setting, pool, body, first + |SendsOf(before)|, CacheOf(setting, registry, targets, cache, before),
                   Around(surroundings, i), part.tries, n, index);
    var k := |SentBy(FirstTries(part.tries, n))|;
    assert (SendsOf(before) + SentBy(part.tries))[|SendsOf(before)| + k] == SentBy(part.tries)[k];
    IsForKey(pool[AttemptAt(course, i, n).chosen], index, setting.headers, body, SentBy(part.tries)[k]);
  }

  /** A served request was answered by its last send, which names the backend and the key. */
  lemma CourseAnswered(setting: Setting, config: Config, log: Log, registry: nat -> Snapshot, targets: seq<Target>,
                       base: Body, first: nat, cache: Cache, surroundings: (nat, nat) -> Surroundings, course: Course)
    requires CourseWalks(setting, registry, targets, base, first, cache, surroundings, course)
    requires InTurn(config, log, registry, targets, course) && HasServed(course)
    ensures SendsOf(course) != []
    ensures var request, r := SendsOf(course)[|SendsOf(course)| - 1].request, course.result;
            && request.backend == r.backend && request.key == r.key
            && setting.reply(first + |SendsOf(course)| - 1) == Status(r.code)
            && r.code !in setting.retry.retryable && !(500 <= r.code < 600) && r.code != 429
  {
    hide AllWalk, CacheOf, PoolFor, RewriteModel, NoteCourse, AllWellChosen;
    var body := RewriteModel(base, targets[Count(course.before)].targetModel).value;
    PoolAnswered(setting, LastPool(registry, targets, course), body, first + |SendsOf(course.before)|,
                 CacheOf(setting, registry, targets, cache, course.before),
                 Around(surroundings, Count(course.before)), course.tries);
  }

  datatype HandlerResult =
    | Responded(backend: nat, key: KeyId, code: nat)
    | Unreadable        // the response body could not be read
    | BadBody           // the request body is not JSON
    | Unavailable       // every target failed, or there was none

  lemma ServedFits(config: Config, log: Log, candidates: seq<Provider>, r: PoolResult, tries: Attempts)
    requires PoolOutcome(config, log, candidates, r, tries)
    ensures r.FromBackend? ==> tries.Tried? && tries.last.chosen < |candidates|
  {
  }

  /** One round of the loop: rewrite the body for target `n` and try its pool. */
  method ServeTarget(breaker: CircuitBreaker, cache: StickyTargetKeyCache, upstream: Upstream<Outgoing<Body>>,
                     retry: RetryConfig, targets: seq<Target>, registry: nat -> Snapshot, apiKey: string,
                     headers: HeaderList, base: Body, surroundings: nat -> Surroundings, n: nat)
    returns (r: Option<PoolResult>, ghost tries: Attempts)
    requires n < |targets| && breaker.Valid() && retry.maxRetries <= 64
    requires forall k :: |surroundings(k).checks| == |PoolFor(registry, targets, n)|
    modifies breaker, breaker.circuits.Values, cache, upstream
    ensures breaker.Valid() && fresh(breaker.circuits.Values - old(breaker.circuits.Values))
    ensures r.None? <==> base == Malformed
    ensures r.None? ==>
              upstream.log == old(upstream.log) && breaker.log == old(breaker.log) && cache.View() == old(cache.View())
    ensures r.Some? && r.value.FromBackend? ==>
              && tries.Tried? && tries.last.chosen < |PoolFor(registry, targets, n)|
              && Remembers(cache.View(), (apiKey, PoolFor(registry, targets, n)[tries.last.chosen].providerId),
                           r.value.key, surroundings(CountTries(tries) - 1).endedAt, cache.ttl)
    ensures r.Some? ==>
              var pool, body := PoolFor(registry, targets, n), RewriteModel(base, targets[n].targetModel);
              var setting := Setting(retry, upstream.reply, apiKey, cache.ttl, Filtered(headers));
              && PoolOutcome(breaker.config, old(breaker.log), pool, r.value, tries)
              && breaker.log == NoteAll(old(breaker.log), pool, tries)
              && upstream.log == old(upstream.log) + SentBy(tries) && body.Some?
              && AllWalk(setting, pool, body.value, |old(upstream.log)|, old(cache.View()), surroundings, tries)
              && cache.View() == CacheAfter(setting, pool, tries, old(cache.View()))
              && ExtendsPool(old(upstream.log), upstream.log, pool, Filtered(headers), body.value)
              && |upstream.log| <= |old(upstream.log)| + PoolBudget(pool, retry)
  {
    hide PoolOutcome, NoteAll, ExtendsPool, PoolBudget, Remembers, PoolFor, AllWalk, CacheAfter, SentBy, AllFit;
    var body := RewriteModel(base, targets[n].targetModel);
    if body.None? {
      return None, Untried;
    }
    var result;
    result, tries := TryTargetPool(breaker, cache, upstream, retry, PoolFor(registry, targets, n), apiKey, headers,
                                   body.value, surroundings);
    ServedFits(breaker.config, old(breaker.log), PoolFor(registry, targets, n), result, tries);
    return Some(result), tries;
  }

  lemma CourseStarts(config: Config, log: Log, registry: nat -> Snapshot, targets: seq<Target>, retry: RetryConfig,
                     headers: Headers, base: Body)
    ensures CourseFits(registry, targets, NoTarget) && InTurn(config, log, registry, targets, NoTarget)
    ensures NoteCourse(log, registry, targets, NoTarget) == log
    ensures SendsOf(NoTarget) == [] && CourseSends(registry, targets, retry, headers, base, NoTarget)
  {
  }

  lemma CourseNext(config: Config, log: Log, registry: nat -> Snapshot, targets: seq<Target>, course: Course,
                   r: PoolResult, tries: Attempts)
    requires Count(course) < |targets| && !HasServed(course)
    requires CourseFits(registry, targets, course) && InTurn(config, log, registry, targets, course)
    requires PoolOutcome(config, NoteCourse(log, registry, targets, course),
                         PoolFor(registry, targets, Count(course)), r, tries)
    ensures var next := AfterTarget(course, r, tries);
            && CourseFits(registry, targets, next) && InTurn(config, log, registry, targets, next)
            && AllFit(tries, PoolFor(registry, targets, Count(course)))
            && NoteCourse(log, registry, targets, next)
               == NoteAll(NoteCourse(log, registry, targets, course), PoolFor(registry, targets, Count(course)), tries)
  {
  }

  lemma SentForPool(before: seq<Sent<Outgoing<Body>>>, sent: seq<Sent<Outgoing<Body>>>, pool: seq<Provider>,
                    target: Target, retry: RetryConfig, headers: Headers, base: Body)
    requires base != Malformed && |sent| <= PoolBudget(pool, retry)
    requires ExtendsPool(before, before + sent, pool, headers, RewriteModel(base, target.targetModel).value)
    ensures SendsFor(pool, target, retry, headers, base, sent)
  {
    hide FromPool, PoolBudget;
    var after, body := before + sent, RewriteModel(base, target.targetModel).value;
    forall i | 0 <= i < |sent| ensures FromPool(pool, headers, body, sent[i]) {
      assert sent[i] == after[|before| + i];
    }
  }

  lemma SendsNext(registry: nat -> Snapshot, targets: seq<Target>, retry: RetryConfig, headers: Headers, base: Body,
                  course: Course, r: PoolResult, tries: Attempts,
                  start: seq<Sent<Outgoing<Body>>>, before: seq<Sent<Outgoing<Body>>>)
    requires Count(course) < |targets| && base != Malformed && before == start + SendsOf(course)
    requires CourseSends(registry, targets, retry, headers, base, course)
    requires ExtendsPool(before, before + SentBy(tries), PoolFor(registry, targets, Count(course)), headers,
                         RewriteModel(base, targets[Count(course)].targetModel).value)
    requires |SentBy(tries)| <= PoolBudget(PoolFor(registry, targets, Count(course)), retry)
    ensures before + SentBy(tries) == start + SendsOf(AfterTarget(course, r, tries))
    ensures CourseSends(registry, targets, retry, headers, base, AfterTarget(course, r, tries))
  {
    hide SendsFor, ExtendsPool, PoolFor, SentBy, RewriteModel, PoolBudget, FromPool;
    SentForPool(before, SentBy(tries), PoolFor(registry, targets, Count(course)), targets[Count(course)], retry,
                headers, base);
    assert start + (SendsOf(course) + SentBy(tries)) == (start + SendsOf(course)) + SentBy(tries);
  }

  /** The key that served the last target is remembered from then on. */
  ghost predicate LastKeyRemembered(cache: Cache, ttl: nat, registry: nat -> Snapshot, targets: seq<Target>,
                                    apiKey: string, surroundings: (nat, nat) -> Surroundings, course: Course)
    requires CourseFits(registry, targets, course)
  {
    course.AfterTarget? && course.result.FromBackend? && course.tries.Tried? ==>
      var chosen := LastPool(registry, targets, course)[course.tries.last.chosen];
      Remembers(cache, (apiKey, chosen.providerId), course.result.key,
                surroundings(Count(course) - 1, CountTries(course.tries) - 1).endedAt, ttl)
  }

  lemma WithinBudget(registry: nat -> Snapshot, targets: seq<Target>, retry: RetryConfig, headers: Headers, base: Body,
                     course: Course)
    requires Count(course) <= |targets| && CourseSends(registry, targets, retry, headers, base, course)
    ensures |SendsOf(course)| <= Budget(registry, targets, retry, |targets|)
  {
    SendsBound(registry, targets, retry, headers, base, course);
    BudgetGrows(registry, targets, retry, Count(course), |targets|);
  }

  lemma ServedRemembers(cache: Cache, ttl: nat, registry: nat -> Snapshot, targets: seq<Target>, apiKey: string,
                        surroundings: (nat, nat) -> Surroundings, course: Course)
    requires CourseFits(registry, targets, course) && course.AfterTarget? && course.result.FromBackend?
    requires course.tries.Tried? && course.tries.last.chosen < |PoolFor(registry, targets, Count(course.before))|
    requires var chosen := PoolFor(registry, targets, Count(course.before))[course.tries.last.chosen];
             Remembers(cache, (apiKey, chosen.providerId), course.result.key,
                       surroundings(Count(course.before), CountTries(course.tries) - 1).endedAt, ttl)
    ensures LastKeyRemembered(cache, ttl, registry, targets, apiKey, surroundings, course)
  {
  }

  lemma UnservedRemembers(cache: Cache, ttl: nat, registry: nat -> Snapshot, targets: seq<Target>, apiKey: string,
                          surroundings: (nat, nat) -> Surroundings, course: Course)
    requires CourseFits(registry, targets, course) && !HasServed(course)
    ensures LastKeyRemembered(cache, ttl, registry, targets, apiKey, surroundings, course)
  {
  }

  /** The breaker's log, the sends and the cache are those of the course so far. */
  ghost predicate CourseUnderway(config: Config, log: Log, log': Log, setting: Setting,
                                 sent: seq<Sent<Outgoing<Body>>>, sent': seq<Sent<Outgoing<Body>>>, cache: Cache,
                                 cache': Cache, registry: nat -> Snapshot, targets: seq<Target>, base: Body,
                                 surroundings: (nat, nat) -> Surroundings, course: Course)
  {
    && Count(course) <= |targets| && CourseFits(registry, targets, course)
    && InTurn(config, log, registry, targets, course) && log' == NoteCourse(log, registry, targets, course)
    && sent' == sent + SendsOf(course)
    && CourseSends(registry, targets, setting.retry, setting.headers, base, course)
    && CourseWalks(setting, registry, targets, base, |sent|, cache, surroundings, course)
    && cache' == CacheOf(setting, registry, targets, cache, course)
  }

  lemma CourseUnderwayStart(config: Config, log: Log, setting: Setting, sent: seq<Sent<Outgoing<Body>>>, cache: Cache,
                            registry: nat -> Snapshot, targets: seq<Target>, base: Body,
                            surroundings: (nat, nat) -> Surroundings)
    ensures CourseUnderway(config, log, log, setting, sent, sent, cache, cache, registry, targets, base, surroundings,
                           NoTarget)
  {
    CourseStarts(config, log, registry, targets, setting.retry, setting.headers, base);
    assert sent + [] == sent;
  }

  lemma CourseUnderwayNext(config: Config, log: Log, log1: Log, log2: Log, setting: Setting,
                           sent: seq<Sent<Outgoing<Body>>>, sent1: seq<Sent<Outgoing<Body>>>,
                           sent2: seq<Sent<Outgoing<Body>>>, cache: Cache, cache1: Cache, cache2: Cache,
                           registry: nat -> Snapshot, targets: seq<Target>, base: Body,
                           surroundings: (nat, nat) -> Surroundings, course: Course, r: PoolResult, tries: Attempts)
    requires CourseUnderway(config, log, log1, setting, sent, sent1, cache, cache1, registry, targets, base,
                            surroundings, course)
    requires Count(course) < |targets| && !HasServed(course) && base != Malformed
    requires var pool, body := PoolFor(registry, targets, Count(course)),
                               RewriteModel(base, targets[Count(course)].targetModel);
             && PoolOutcome(config, log1, pool, r, tries) && log2 == NoteAll(log1, pool, tries)
             && sent2 == sent1 + SentBy(tries) && body.Some?
             && AllWalk(setting, pool, body.value, |sent1|, cache1, Around(surroundings, Count(course)), tries)
             && cache2 == CacheAfter(setting, pool, tries, cache1)
             && ExtendsPool(sent1, sent2, pool, setting.headers, body.value)
             && |sent2| <= |sent1| + PoolBudget(pool, setting.retry)
    ensures CourseUnderway(config, log, log2, setting, sent, sent2, cache, cache2, registry, targets, base,
                           surroundings, AfterTarget(course, r, tries))
  {
    hide PoolOutcome, NoteAll, NoteCourse, InTurn, CourseSends, ExtendsPool, PoolFor, PoolBudget, AllWalk, CacheAfter;
    hide AllFit, SentBy, RewriteModel;
    CourseNext(config, log, registry, targets, course, r, tries);
    SendsNext(registry, targets, setting.retry, setting.headers, base, course, r, tries, sent, sent1);
  }

  lemma CourseUnderwayEnds(config: Config, log: Log, log': Log, setting: Setting, sent: seq<Sent<Outgoing<Body>>>,
                           sent': seq<Sent<Outgoing<Body>>>, cache: Cache, cache': Cache, registry: nat -> Snapshot,
                           targets: seq<Target>, base: Body, surroundings: (nat, nat) -> Surroundings, course: Course)
    requires CourseUnderway(config, log, log', setting, sent, sent', cache, cache', registry, targets, base,
                            surroundings, course)
    ensures Count(course) <= |targets| && CourseFits(registry, targets, course)
    ensures InTurn(config, log, registry, targets, course) && log' == NoteCourse(log, registry, targets, course)
    ensures sent' == sent + SendsOf(course)
    ensures CourseSends(registry, targets, setting.retry, setting.headers, base, course)
    ensures CourseWalks(setting, registry, targets, base, |sent|, cache, surroundings, course)
    ensures cache' == CacheOf(setting, registry, targets, cache, course)
    ensures |SendsOf(course)| <= Budget(registry, targets, setting.retry, |targets|)
  {
    WithinBudget(registry, targets, setting.retry, setting.headers, base, course);
  }

  /** What happens to a response: it is passed on if its body can be read, and only then a success is recorded. */
  method PassOn(breaker: CircuitBreaker, result: PoolResult, readable: bool, meanwhile: Others)
    returns (r: HandlerResult)
    requires breaker.Valid() && result.FromBackend?
    modifies breaker, breaker.circuits.Values
    ensures breaker.Valid()
    ensures r == if readable then Responded(result.backend, result.key, result.code) else Unreadable
    ensures breaker.log == if readable then
                             Noted(NoteOthers(old(breaker.log), meanwhile, |meanwhile|), result.backend, Success)
                           else old(breaker.log)
  {
    hide CircuitBreaker.Valid, NoteOthers;
    if !readable {
      return Unreadable;
    }
    LetOthersRun(breaker, meanwhile);
    breaker.RecordSuccess(result.backend);
    return Responded(result.backend, result.key, result.code);
  }

  /** `registry(i)` is whatever registry is current at target `i`, `surroundings(i, k)` what its `k`-th attempt meets
      (with a health check of each candidate), `readable` says whether the response body arrives completely, and
      `meanwhile` is what other requests do to the breaker until then. */
  method ServeTargets(breaker: CircuitBreaker, cache: StickyTargetKeyCache, upstream: Upstream<Outgoing<Body>>,
                      retry: RetryConfig, targets: seq<Target>, registry: nat -> Snapshot, apiKey: string,
                      headers: HeaderList, base: Body, surroundings: (nat, nat) -> Surroundings, readable: bool,
                      meanwhile: Others)
    returns (r: HandlerResult, ghost course: Course)
    requires breaker.Valid() && retry.maxRetries <= 64
    requires forall i, k :: 0 <= i < |targets| && 0 <= k ==>
               |surroundings(i, k).checks| == |PoolFor(registry, targets, i)|
    modifies breaker, breaker.circuits.Values, cache, upstream
    ensures breaker.Valid()
    ensures Count(course) <= |targets| && CourseFits(registry, targets, course)
    ensures InTurn(breaker.config, old(breaker.log), registry, targets, course)
    ensures LastKeyRemembered(cache.View(), cache.ttl, registry, targets, apiKey, surroundings, course)
    ensures r.Responded? ==>
              && HasServed(course) && course.result == FromBackend(r.backend, r.key, r.code)
              && var after := NoteCourse(old(breaker.log), registry, targets, course);
                 breaker.log == Noted(NoteOthers(after, meanwhile, |meanwhile|), r.backend, Success)
    ensures !r.Responded? ==> breaker.log == NoteCourse(old(breaker.log), registry, targets, course)
    ensures HasServed(course) ==> if readable then r.Responded? else r.Unreadable?
    ensures base == Malformed ==> course == NoTarget && r == if targets == [] then Unavailable else BadBody
    ensures !HasServed(course) && base != Malformed ==> Count(course) == |targets| && r.Unavailable?
    ensures upstream.log == old(upstream.log) + SendsOf(course)
    ensures HasServed(course) ==>
              && SendsOf(course) != [] && upstream.reply(|upstream.log| - 1) == Status(course.result.code)
              && upstream.log[|upstream.log| - 1].request.backend == course.result.backend
              && upstream.log[|upstream.log| - 1].request.key == course.result.key
              && var code := course.result.code; code !in retry.retryable && !(500 <= code < 600) && code != 429
    ensures CourseSends(registry, targets, retry, Filtered(headers), base, course)
    ensures var setting := Setting(retry, upstream.reply, apiKey, cache.ttl, Filtered(headers));
            && CourseWalks(setting, registry, targets, base, |old(upstream.log)|, old(cache.View()), surroundings,
                           course)
            && cache.View() == CacheOf(setting, registry, targets, old(cache.View()), course)
    ensures |SendsOf(course)| <= Budget(registry, targets, retry, |targets|)
  {
    hide PoolOutcome, InTurn, NoteAll, NoteCourse, CourseFits, AllFit, ExtendsPool, PoolFor, FromPool, CourseUnderway;
    hide SendsOf, CourseSends, Remembers, Budget, LastKeyRemembered, Filtered, NoteOthers, CircuitBreaker.Valid;
    hide CourseWalks, CacheOf, AllWalk, SentBy, CacheAfter, PoolBudget, RewriteModel;
    ghost var config, log, sent, view := breaker.config, breaker.log, upstream.log, cache.View();
    ghost var setting := Setting(retry, upstream.reply, apiKey, cache.ttl, Filtered(headers));
    course := NoTarget;
    CourseUnderwayStart(config, log, setting, sent, view, registry, targets, base, surroundings);
    for n := 0 to |targets|
      invariant breaker.Valid() && fresh(breaker.circuits.Values - old(breaker.circuits.Values))
      invariant Count(course) == n && !HasServed(course) && (base == Malformed ==> n == 0 && course == NoTarget)
      invariant CourseUnderway(config, log, breaker.log, setting, sent, upstream.log, view, cache.View(), registry,
                               targets, base, surroundings, course)
    {
      ghost var log1, sent1, view1 := breaker.log, upstream.log, cache.View();
      var outcome, tries := ServeTarget(breaker, cache, upstream, retry, targets, registry, apiKey, headers, base,
                                        Around(surroundings, n), n);
      if outcome.None? {
        CourseUnderwayEnds(config, log, breaker.log, setting, sent, upstream.log, view, cache.View(), registry,
                           targets, base, surroundings, course);
        UnservedRemembers(cache.View(), cache.ttl, registry, targets, apiKey, surroundings, course);
        return BadBody, course;
      }
      var result := outcome.value;
      CourseUnderwayNext(config, log, log1, breaker.log, setting, sent, sent1, upstream.log, view, view1, cache.View(),
                         registry, targets, base, surroundings, course, result, tries);
      course := AfterTarget(course, result, tries);
      if result.FromBackend? {
        CourseUnderwayEnds(config, log, breaker.log, setting, sent, upstream.log, view, cache.View(), registry,
                           targets, base, surroundings, course);
        ServedRemembers(cache.View(), cache.ttl, registry, targets, apiKey, surroundings, course);
        CourseAnswered(setting, config, log, registry, targets, base, |sent|, view, surroundings, course);
        r := PassOn(breaker, result, readable, meanwhile);
        return;
      }
    }
    CourseUnderwayEnds(config, log, breaker.log, setting, sent, upstream.log, view, cache.View(), registry, targets,
                       base, surroundings, course);
    UnservedRemembers(cache.View(), cache.ttl, registry, targets, apiKey, surroundings, course);
    return Unavailable, course;
  }

  /** Every send for a request goes to a backend of some target's pool, on the turn of a usable key of it, carries
      that same target's model and the headers for that key; these hold the key's credential exactly if the request's
      own headers leave it that place. */
  lemma SendsCarryTargetModel(registry: nat -> Snapshot, targets: seq<Target>, retry: RetryConfig, headers: HeaderList,
                              base: Body, course: Course, j: nat)
    returns (i: nat, c: nat, k: nat)
    requires Count(course) <= |targets| && CourseSends(registry, targets, retry, Filtered(headers), base, course)
    requires j < |SendsOf(course)|
    ensures i < |targets| && c < |PoolFor(registry, targets, i)| && k < |PoolFor(registry, targets, i)[c].keys|
    ensures var p, r := PoolFor(registry, targets, i)[c], SendsOf(course)[j].request;
            && r.backend == p.backendId && r.key == p.keys[k].id && p.keys[k].secret.Some?
            && CarriesModel(r.body, targets[i].targetModel)
            && r.headers == AttemptHeaders(p.auth, p.keys[k].secret.value, headers)
            && (LeavesAuth(p.auth, headers) ==>
                  AuthHeader(p.auth) in r.headers
                  && r.headers[AuthHeader(p.auth)] == Credential(p.auth, p.keys[k].secret.value))
            && (!LeavesAuth(p.auth, headers) ==>
                  forall other :: r.headers == AttemptHeaders(p.auth, other, headers))
  {
    i := TargetOfSend(registry, targets, retry, Filtered(headers), base, course, j);
    var body := RewriteModel(base, targets[i].targetModel).value;
    RewriteCarries(base, targets[i].targetModel, targets[i].targetModel);
    var pool, sent := PoolFor(registry, targets, i), SendsOf(course)[j];
    c :| 0 <= c < |pool| && From(pool[c], Filtered(headers), body, sent);
    var p := pool[c];
    k :| 0 <= k < |p.keys| && OnTurn(p, p.keys[k], Filtered(headers), sent);
    KeyGoesOut(p.auth, p.keys[k].secret.value, headers);
  }
}
