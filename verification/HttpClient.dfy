/** The provider HTTP client: sending with retries, exponential backoff and jitter. */
module HttpClient {
  /** The `ProviderError` variants that a send or a failed key can produce. */
  datatype ErrorKind = Network | Timeout | Auth | RateLimit | Internal

  /** What one send upstream yields. */
  datatype Reply = Status(code: nat) | Broken(kind: ErrorKind)

  datatype HttpResult = Response(code: nat) | HttpError(kind: ErrorKind)

  type U64 = x: nat | x < 0x1_0000_0000_0000_0000

  datatype RetryConfig = RetryConfig(maxRetries: nat, baseDelayMs: U64, maxDelayMs: U64, retryable: set<nat>)

  /** `base << attempt`, without overflow. */
  function Doubled(base: nat, attempt: nat): nat {
    if attempt == 0 then base else 2 * Doubled(base, attempt - 1)
  }

  function Min(a: nat, b: nat): nat {
    if a <= b then a else b
  }

  /** `base.saturating_mul(1 << attempt).min(max)`; the shift is defined for attempts below 64. */
  function Capped(config: RetryConfig, attempt: nat): nat {
    Min(Min(Doubled(config.baseDelayMs, attempt), 0xFFFF_FFFF_FFFF_FFFF), config.maxDelayMs)
  }

  /** The capped delay plus a jitter of up to a fifth of it; every jitter in that range is some `draw`. */
  function Delay(config: RetryConfig, attempt: nat, draw: nat): nat {
    Capped(config, attempt) + Min(draw, Capped(config, attempt) / 5)
  }

  predicate RetryWorthy(config: RetryConfig, reply: Reply) {
    match reply
    case Status(code) => code in config.retryable
    case Broken(kind) => kind.Network? || kind.Timeout?
  }

  datatype HttpRun = HttpRun(result: HttpResult, sends: nat)

  /** The run of a request whose first send is number `first`, when `attempt` sends have already failed. */
  function Retry(config: RetryConfig, reply: nat -> Reply, first: nat, attempt: nat): (run: HttpRun)
    requires attempt <= config.maxRetries
    ensures attempt < run.sends <= config.maxRetries + 1
    decreases config.maxRetries - attempt
  {
    var r := reply(first + attempt);
    if RetryWorthy(config, r) && attempt < config.maxRetries then Retry(config, reply, first, attempt + 1)
    else
      match r
      case Status(code) => HttpRun(if code in config.retryable then HttpError(Network) else Response(code), attempt + 1)
      case Broken(kind) => HttpRun(HttpError(kind), attempt + 1)
  }

  /** A send is repeated exactly if retries are left and its reply is one of the configured statuses, a network error
      or a timeout. */
  lemma {:induction false} RetriesIff(config: RetryConfig, reply: nat -> Reply, first: nat, attempt: nat, k: nat)
    requires attempt <= k <= config.maxRetries
    ensures Retry(config, reply, first, attempt).sends > k + 1
       <==> k < config.maxRetries
            && forall n :: first + attempt <= n <= first + k ==>
                 match reply(n)
                 case Status(code) => code in config.retryable
                 case Broken(kind) => kind == Network || kind == Timeout
    decreases config.maxRetries - attempt
  {
    if !RetryWorthy(config, reply(first + attempt)) || attempt == config.maxRetries {
    } else if attempt < k {
      RetriesIff(config, reply, first, attempt + 1, k);
    }
  }

  /** A run stops at its first reply that is not worth a retry, or when the retries are used up, and its result
      is that reply; a status that triggers retries is never passed on. */
  lemma {:induction false} FirstSettledReply(config: RetryConfig, reply: nat -> Reply, first: nat, attempt: nat)
    requires attempt <= config.maxRetries
    ensures var run := Retry(config, reply, first, attempt);
            var last := reply(first + run.sends - 1);
            && (forall k :: first + attempt <= k < first + run.sends - 1 ==> RetryWorthy(config, reply(k)))
            && (RetryWorthy(config, last) ==> run.sends == config.maxRetries + 1 && run.result.HttpError?)
            && (forall code :: run.result == Response(code) <==> last == Status(code) && code !in config.retryable)
            && (last.Broken? ==> run.result == HttpError(last.kind))
            && (last.Status? && last.code in config.retryable ==> run.result == HttpError(Network))
    decreases config.maxRetries - attempt
  {
    var r := reply(first + attempt);
    if !RetryWorthy(config, r) || attempt == config.maxRetries {
    } else {
      FirstSettledReply(config, reply, first, attempt + 1);
    }
  }

  /** The waits before the retries of a run of `sends` sends. */
  function Waits(config: RetryConfig, draws: nat -> nat, sends: nat): (ws: seq<nat>)
    ensures |ws| == if sends == 0 then 0 else sends - 1
  {
    if sends <= 1 then [] else Waits(config, draws, sends - 1) + [Delay(config, sends - 2, draws(sends - 2))]
  }

  /** One send: the request's identity and which retry it is. */
  datatype Sent<Request> = Sent(request: Request, retry: nat)

  /** The network: an arbitrary reply to each send, a log of what was sent, and the sleeps in between. */
  class Upstream<Request> {
    const reply: nat -> Reply
    var log: seq<Sent<Request>>
    var slept: seq<nat>

    constructor (reply: nat -> Reply)
      ensures this.reply == reply && log == [] && slept == []
    {
      this.reply := reply;
      log, slept := [], [];
    }

    method Send(request: Request, retry: nat) returns (r: Reply)
      modifies this`log
      ensures log == old(log) + [Sent(request, retry)] && r == reply(|old(log)|)
    {
      r := reply(|log|);
      log := log + [Sent(request, retry)];
    }

    method Sleep(ms: nat)
      modifies this`slept
      ensures slept == old(slept) + [ms]
    {
      slept := slept + [ms];
    }
  }

  /** The sends of one run. */
  function Sends<Request>(request: Request, n: nat): (s: seq<Sent<Request>>)
    ensures |s| == n
  {
    if n == 0 then [] else Sends(request, n - 1) + [Sent(request, n - 1)]
  }

  lemma {:induction false} SendsAt<Request>(request: Request, n: nat, i: nat)
    requires i < n
    ensures Sends(request, n)[i] == Sent(request, i)
  {
    if i == n - 1 {
    } else {
      SendsAt(request, n - 1, i);
    }
  }

  lemma Nothing<Request>(config: RetryConfig, request: Request, draws: nat -> nat)
    ensures Sends(request, 0) == [] && Waits(config, draws, 1) == []
  {
  }

  lemma OneMoreSend<Request>(config: RetryConfig, request: Request, draws: nat -> nat, n: nat)
    ensures Sends(request, n + 1) == Sends(request, n) + [Sent(request, n)]
    ensures Waits(config, draws, n + 2) == Waits(config, draws, n + 1) + [Delay(config, n, draws(n))]
  {
  }

  lemma RetryGoesOn(config: RetryConfig, reply: nat -> Reply, first: nat, attempt: nat)
    requires attempt < config.maxRetries && RetryWorthy(config, reply(first + attempt))
    ensures Retry(config, reply, first, attempt) == Retry(config, reply, first, attempt + 1)
  {
  }

  lemma RetryEnds(config: RetryConfig, reply: nat -> Reply, first: nat, attempt: nat)
    requires attempt <= config.maxRetries
    requires attempt == config.maxRetries || !RetryWorthy(config, reply(first + attempt))
    ensures var run, last := Retry(config, reply, first, attempt), reply(first + attempt);
            && run.sends == attempt + 1
            && (last.Status? ==>
                  run.result == if last.code in config.retryable then HttpError(Network) else Response(last.code))
            && (last.Broken? ==> run.result == HttpError(last.kind))
  {
  }

  method ExecuteWithRetry<Request>(config: RetryConfig, upstream: Upstream<Request>, request: Request,
                                   draws: nat -> nat)
    returns (result: HttpResult)
    requires config.maxRetries <= 64
    modifies upstream
    ensures var run := Retry(config, upstream.reply, |old(upstream.log)|, 0);
            && result == run.result
            && upstream.log == old(upstream.log) + Sends(request, run.sends)
            && upstream.slept == old(upstream.slept) + Waits(config, draws, run.sends)
  {
    hide Retry, Delay, RetryWorthy, Sends, Waits;
    Nothing(config, request, draws);
    ghost var first := |upstream.log|;
    for attempt := 0 to config.maxRetries + 1
      invariant upstream.log == old(upstream.log) + Sends(request, attempt)
      invariant upstream.slept == old(upstream.slept) + Waits(config, draws, attempt + 1)
      invariant attempt <= config.maxRetries
                && Retry(config, upstream.reply, first, 0) == Retry(config, upstream.reply, first, attempt)
    {
      OneMoreSend(config, request, draws, attempt);
      var r := upstream.Send(request, attempt);
      if RetryWorthy(config, r) && attempt < config.maxRetries {
        RetryGoesOn(config, upstream.reply, first, attempt);
        upstream.Sleep(Delay(config, attempt, draws(attempt)));
        continue;
      }
      RetryEnds(config, upstream.reply, first, attempt);
      match r {
        case Status(code) =>
          return if code in config.retryable then HttpError(Network) else Response(code);
        case Broken(kind) =>
          return HttpError(kind);
      }
    }
  }

  // ----- Backoff -----

  lemma {:induction false} DoubledGrows(base: nat, a: nat, b: nat)
    requires a <= b
    ensures Doubled(base, a) <= Doubled(base, b)
  {
    if a == b {
    } else {
      DoubledGrows(base, a, b - 1);
    }
  }

  /** The saturation is invisible behind the cap; delays never decrease and stay at the cap once they reach it. */
  lemma CappedDelays(config: RetryConfig, a: nat, b: nat)
    requires a <= b
    ensures Capped(config, a) == Min(Doubled(config.baseDelayMs, a), config.maxDelayMs)
    ensures Capped(config, a) <= Capped(config, b) <= config.maxDelayMs
    ensures Capped(config, a) == config.maxDelayMs ==> Capped(config, b) == config.maxDelayMs
  {
    DoubledGrows(config.baseDelayMs, a, b);
  }

  /** The delay starts at the base and doubles from one retry to the next until it reaches the maximum. */
  lemma DelayDoubles(config: RetryConfig, attempt: nat)
    ensures Capped(config, 0) == Min(config.baseDelayMs, config.maxDelayMs)
    ensures Capped(config, attempt + 1) == Min(2 * Capped(config, attempt), config.maxDelayMs)
  {
  }

  /** Every jitter of up to a fifth of the capped delay is drawn by some random number, and no other. */
  lemma JitterRange(config: RetryConfig, attempt: nat, delay: nat)
    ensures (exists draw :: Delay(config, attempt, draw) == delay)
       <==> Capped(config, attempt) <= delay <= Capped(config, attempt) + Capped(config, attempt) / 5
  {
    if Capped(config, attempt) <= delay {
      assert delay <= Capped(config, attempt) + Capped(config, attempt) / 5 ==>
               Delay(config, attempt, delay - Capped(config, attempt)) == delay;
    }
  }

  function Sum(xs: seq<nat>): nat {
    if xs == [] then 0 else Sum(xs[..|xs| - 1]) + xs[|xs| - 1]
  }

  function SumCapped(config: RetryConfig, n: nat): nat {
    if n == 0 then 0 else SumCapped(config, n - 1) + Min(Doubled(config.baseDelayMs, n - 1), config.maxDelayMs)
  }

  lemma DelayBound(config: RetryConfig, attempt: nat, draw: nat)
    ensures Capped(config, attempt) <= Delay(config, attempt, draw)
    ensures 5 * Delay(config, attempt, draw) <= 6 * Capped(config, attempt)
  {
  }

  lemma {:induction false} WaitIsDelay(config: RetryConfig, draws: nat -> nat, sends: nat, i: nat)
    requires i + 1 < sends
    ensures Waits(config, draws, sends)[i] == Delay(config, i, draws(i))
  {
    if i + 2 == sends {
    } else {
      WaitIsDelay(config, draws, sends - 1, i);
    }
  }

  /** Whatever the jitter, each wait is between the capped delay and 6/5 of it, and so at most 6/5 of the maximum. */
  lemma {:induction false} EachWaitBound(config: RetryConfig, draws: nat -> nat, sends: nat, i: nat)
    requires i + 1 < sends
    ensures var wait := Waits(config, draws, sends)[i];
            Capped(config, i) <= wait && 5 * wait <= 6 * Capped(config, i) <= 6 * config.maxDelayMs
  {
    WaitIsDelay(config, draws, sends, i);
    DelayBound(config, i, draws(i));
    CappedDelays(config, i, i);
  }

  /** The total wait is between the sum of the capped delays and 6/5 of it. */
  lemma {:induction false} TotalWaitBound(config: RetryConfig, draws: nat -> nat, sends: nat)
    ensures var ws := Waits(config, draws, sends);
            SumCapped(config, |ws|) <= Sum(ws) && 5 * Sum(ws) <= 6 * SumCapped(config, |ws|)
  {
    if sends <= 1 {
    } else {
      TotalWaitBound(config, draws, sends - 1);
      CappedDelays(config, sends - 2, sends - 2);
      DelayBound(config, sends - 2, draws(sends - 2));
    }
  }
}
