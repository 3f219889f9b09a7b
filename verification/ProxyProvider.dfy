/**
 One provider at work: the walk over its keys as it shows on the log of sends. Everything is told in terms of the
 sends themselves and the upstream's replies to them.
 */
module ProxyProvider {
  import opened Wrappers
  import opened AuthHeaders
  import opened HttpClient
  import opened KeyFailover

  /** A request as it leaves for one backend; `key` is the key whose turn it is, whatever the headers carry. */
  datatype Outgoing<Body> = Outgoing(backend: nat, key: KeyId, headers: Headers, body: Body)

  predicate OnTurn<Body>(p: Provider, key: ProviderKey, headers: Headers, sent: Sent<Outgoing<Body>>) {
    && key.id == sent.request.key && key.secret.Some?
    && sent.request.headers == Merged(headers, ProviderHeaders(p.auth, key.secret.value))
  }

  /** A send to `p` with `body`, made on the turn of a usable key of `p`, and with that key's headers added to
      `headers` where these lack them. */
  ghost predicate From<Body>(p: Provider, headers: Headers, body: Body, sent: Sent<Outgoing<Body>>) {
    && sent.request.backend == p.backendId && sent.request.body == body
    && exists k :: 0 <= k < |p.keys| && OnTurn(p, p.keys[k], headers, sent)
  }

  /** The log after sending for `p` and nothing else. */
  ghost predicate Extends<Body>(before: seq<Sent<Outgoing<Body>>>, after: seq<Sent<Outgoing<Body>>>,
                                p: Provider, headers: Headers, body: Body) {
    before <= after && forall i :: |before| <= i < |after| ==> From(p, headers, body, after[i])
  }

  lemma ExtendsTwice<Body>(a: seq<Sent<Outgoing<Body>>>, b: seq<Sent<Outgoing<Body>>>, c: seq<Sent<Outgoing<Body>>>,
                           p: Provider, headers: Headers, body: Body)
    requires Extends(a, b, p, headers, body) && Extends(b, c, p, headers, body)
    ensures Extends(a, c, p, headers, body)
  {
    forall i | |a| <= i < |c| ensures From(p, headers, body, c[i]) {
      if i < |b| { assert c[i] == b[i]; }
    }
  }

  lemma SendsExtend<Body>(log: seq<Sent<Outgoing<Body>>>, request: Outgoing<Body>, n: nat,
                          p: Provider, index: nat, headers: Headers)
    requires index < |p.keys| && p.keys[index].secret.Some?
    requires request == Outgoing(p.backendId, p.keys[index].id,
                                 Merged(headers, ProviderHeaders(p.auth, p.keys[index].secret.value)), request.body)
    ensures Extends(log, log + Sends(request, n), p, headers, request.body)
  {
    var after := log + Sends(request, n);
    forall i | |log| <= i < |after| ensures From(p, headers, request.body, after[i]) {
      SendsAt(request, n, i - |log|);
      assert after[i].request == request;
      assert OnTurn(p, p.keys[index], headers, after[i]);
    }
  }

  // ----- The trail of a walk -----

  /** The sends of a walk: those from position `base` of the log on, each for the key that is `offsets[n]` places after
      `start` in cyclic order. */
  datatype Trail<Body> = Trail(base: nat, sent: seq<Sent<Outgoing<Body>>>, start: nat, offsets: seq<nat>)

  /** The request that goes out on the turn of a usable key: with its own headers and under its own name. */
  function RequestFor<Body>(p: Provider, index: nat, headers: Headers, body: Body): Outgoing<Body>
    requires index < |p.keys| && p.keys[index].secret.Some?
  {
    Outgoing(p.backendId, p.keys[index].id, Merged(headers, ProviderHeaders(p.auth, p.keys[index].secret.value)), body)
  }

  ghost predicate IsFor<Body>(p: Provider, index: nat, headers: Headers, body: Body, sent: Sent<Outgoing<Body>>)
    requires index < |p.keys|
  {
    p.keys[index].secret.Some? && sent.request == RequestFor(p, index, headers, body)
  }

  lemma IsForKey<Body>(p: Provider, index: nat, headers: Headers, body: Body, sent: Sent<Outgoing<Body>>)
    requires index < |p.keys| && IsFor(p, index, headers, body, sent)
    ensures sent.request.backend == p.backendId && sent.request.key == p.keys[index].id
  {
  }

  /** A response that is passed back: neither a status that triggers retries, nor a server error, nor 429. */
  predicate Acceptable(config: RetryConfig, r: Reply) {
    r.Status? && r.code !in config.retryable && !(500 <= r.code < 600) && r.code != 429
  }

  /** The same key is sent again as a retry, or the next key comes after an answer that cannot be passed back and that
      is not worth a retry any more. */
  predicate Proceeds(config: RetryConfig, r: Reply, offset: nat, retry: nat, offset': nat, retry': nat) {
    if offset' == offset then
      retry < config.maxRetries && RetryWorthy(config, r) && retry' == retry + 1
    else
      && offset < offset' && retry' == 0
      && !Acceptable(config, r) && (RetryWorthy(config, r) ==> retry == config.maxRetries)
  }

  /** Each send is for the key at its offset. */
  ghost predicate Placed<Body>(p: Provider, headers: Headers, body: Body, t: Trail<Body>, upto: nat)
    requires upto <= |p.keys|
  {
    && |t.offsets| == |t.sent|
    && forall n :: 0 <= n < |t.sent| ==>
         t.offsets[n] < upto && IsFor(p, Cyclic(|p.keys|, t.start, t.offsets[n]), headers, body, t.sent[n])
  }

  /** Each send comes after the one before it for a reason. */
  ghost predicate Steady<Body>(config: RetryConfig, reply: nat -> Reply, t: Trail<Body>)
    requires |t.offsets| == |t.sent|
  {
    && (t.sent != [] ==> t.sent[0].retry == 0)
    && forall n :: 0 < n < |t.sent| ==>
         Proceeds(config, reply(t.base + n - 1), t.offsets[n - 1], t.sent[n - 1].retry, t.offsets[n], t.sent[n].retry)
  }

  /** Every usable key among the first `upto` in cyclic order has had its turn. */
  ghost predicate Covers<Body>(p: Provider, t: Trail<Body>, upto: nat)
    requires upto <= |p.keys|
  {
    forall o :: 0 <= o < upto && p.keys[Cyclic(|p.keys|, t.start, o)].secret.Some? ==> o in t.offsets
  }

  /** The trail so far: every usable key among the first `upto` in cyclic order has had its turn, and no other. */
  ghost predicate Follows<Body>(p: Provider, config: RetryConfig, reply: nat -> Reply, headers: Headers, body: Body,
                                t: Trail<Body>, upto: nat)
    requires upto <= |p.keys|
  {
    Placed(p, headers, body, t, upto) && Steady(config, reply, t) && Covers(p, t, upto)
  }

  /** The error that is reported when nobody serves: what became of the last key. */
  function LastError<Body>(p: Provider, reply: nat -> Reply, t: Trail<Body>, upto: nat): ErrorKind
    requires upto <= |p.keys|
  {
    if upto == 0 then Network
    else if p.keys[Cyclic(|p.keys|, t.start, upto - 1)].secret.None? || t.sent == [] then Internal
    else
      match reply(t.base + |t.sent| - 1)
      case Status(_) => Network
      case Broken(kind) => kind
  }

  /** The last answer so far cannot be passed back and is not worth a retry any more. */
  ghost predicate Unserved<Body>(config: RetryConfig, reply: nat -> Reply, t: Trail<Body>) {
    t.sent != [] ==>
      var last := reply(t.base + |t.sent| - 1);
      !Acceptable(config, last) && (RetryWorthy(config, last) ==> t.sent[|t.sent| - 1].retry == config.maxRetries)
  }

  /** The whole trail of a walk and its result. */
  ghost predicate Walked<Body>(p: Provider, config: RetryConfig, reply: nat -> Reply, headers: Headers, body: Body,
                               t: Trail<Body>, result: KeyResult)
  {
    match result
    case Served(key, code) =>
      && t.sent != [] && |t.offsets| == |t.sent| && t.offsets[|t.sent| - 1] < |p.keys|
      && Follows(p, config, reply, headers, body, t, t.offsets[|t.sent| - 1] + 1)
      && p.keys[Cyclic(|p.keys|, t.start, t.offsets[|t.sent| - 1])].id == key
      && reply(t.base + |t.sent| - 1) == Status(code) && Acceptable(config, Status(code))
    case Failed(kind) =>
      && Follows(p, config, reply, headers, body, t, |p.keys|) && Unserved(config, reply, t)
      && kind == LastError(p, reply, t, |p.keys|)
  }

  // ----- What a trail tells -----

  lemma {:induction false} OffsetsAscend<Body>(p: Provider, config: RetryConfig, reply: nat -> Reply, headers: Headers,
                                               body: Body, t: Trail<Body>, upto: nat, m: nat, n: nat)
    requires upto <= |p.keys| && Follows(p, config, reply, headers, body, t, upto) && m <= n < |t.sent|
    ensures t.offsets[m] <= t.offsets[n]
  {
    if m == n {
    } else {
      OffsetsAscend(p, config, reply, headers, body, t, upto, m, n - 1);
      assert Proceeds(config, reply(t.base + n - 1), t.offsets[n - 1], t.sent[n - 1].retry, t.offsets[n],
                      t.sent[n].retry);
    }
  }

  /** A served walk was answered by its last send, which was on the turn of the key it names, with its secret. */
  lemma ServedByLastSend<Body>(p: Provider, config: RetryConfig, reply: nat -> Reply, headers: Headers, body: Body,
                               t: Trail<Body>, key: KeyId, code: nat) returns (index: nat)
    requires Walked(p, config, reply, headers, body, t, Served(key, code))
    ensures t.sent != [] && reply(t.base + |t.sent| - 1) == Status(code)
    ensures index < |p.keys| && p.keys[index].id == key && IsFor(p, index, headers, body, t.sent[|t.sent| - 1])
    ensures t.sent[|t.sent| - 1].request.backend == p.backendId && t.sent[|t.sent| - 1].request.key == key
    ensures code !in config.retryable && !(500 <= code < 600) && code != 429
  {
    index := Cyclic(|p.keys|, t.start, t.offsets[|t.sent| - 1]);
  }

  /** The place of a key in the cyclic order. */
  lemma OffsetOf(n: nat, start: nat, index: nat) returns (o: nat)
    requires index < n && start < n
    ensures o < n && Cyclic(n, start, o) == index
  {
    o := if index >= start then index - start else index + n - start;
    Wrap(n, start + o);
  }

  /** The last send for the key at offset `o`. */
  lemma {:induction false} LastSendAt<Body>(t: Trail<Body>, o: nat, m: nat) returns (n: nat)
    requires |t.offsets| == |t.sent| && m <= |t.sent| && o in t.offsets[..m]
    ensures n < m && t.offsets[n] == o && forall k :: n < k < m ==> t.offsets[k] != o
  {
    if t.offsets[m - 1] == o {
      n := m - 1;
    } else {
      assert t.offsets[..m] == t.offsets[..m - 1] + [t.offsets[m - 1]];
      n := LastSendAt(t, o, m - 1);
    }
  }

  /** The last answer to a key whose turn is over cannot be passed back. */
  lemma TurnOver<Body>(config: RetryConfig, reply: nat -> Reply, t: Trail<Body>, n: nat)
    requires |t.offsets| == |t.sent| && Steady(config, reply, t) && Unserved(config, reply, t)
    requires n < |t.sent| && forall k :: n < k < |t.sent| ==> t.offsets[k] != t.offsets[n]
    ensures !Acceptable(config, reply(t.base + n))
  {
    hide Acceptable, RetryWorthy;
    if n + 1 < |t.sent| {
      assert Proceeds(config, reply(t.base + n), t.offsets[n], t.sent[n].retry, t.offsets[n + 1], t.sent[n + 1].retry);
    }
  }

  /** A failed walk has sent on the turn of every usable key, and the last answer to each was an error, a status that
      triggers retries, a server error or 429. */
  lemma FailedTriedAll<Body>(p: Provider, config: RetryConfig, reply: nat -> Reply, headers: Headers, body: Body,
                             t: Trail<Body>, kind: ErrorKind, index: nat) returns (n: nat)
    requires Walked(p, config, reply, headers, body, t, Failed(kind))
    requires index < |p.keys| && p.keys[index].secret.Some? && t.start < |p.keys|
    ensures n < |t.sent| && IsFor(p, index, headers, body, t.sent[n])
    ensures |t.offsets| == |t.sent| && forall k :: n < k < |t.sent| ==> t.offsets[k] != t.offsets[n]
    ensures match reply(t.base + n)
            case Broken(_) => true
            case Status(code) => code in config.retryable || 500 <= code < 600 || code == 429
  {
    hide Steady, Unserved, LastError, IsFor, Cyclic;
    var o := OffsetOf(|p.keys|, t.start, index);
    assert t.offsets[..|t.sent|] == t.offsets;
    n := LastSendAt(t, o, |t.sent|);
    TurnOver(config, reply, t, n);
  }

  lemma OffsetBelow<Body>(p: Provider, headers: Headers, body: Body, t: Trail<Body>, upto: nat)
    requires upto <= |p.keys| && Placed(p, headers, body, t, upto)
    ensures t.sent != [] ==> upto > 0
  {
    if t.sent != [] { assert t.offsets[0] < upto; }
  }

  /** The error that a failed walk reports: what became of the last key in the order. */
  lemma FailureKind<Body>(p: Provider, config: RetryConfig, reply: nat -> Reply, headers: Headers, body: Body,
                          t: Trail<Body>, kind: ErrorKind)
    requires Walked(p, config, reply, headers, body, t, Failed(kind))
    ensures p.keys == [] ==> kind == Network && t.sent == []
    ensures p.keys != [] ==>
              if p.keys[Cyclic(|p.keys|, t.start, |p.keys| - 1)].secret.None? then kind == Internal
              else
                && t.sent != []
                && match reply(t.base + |t.sent| - 1)
                   case Status(_) => kind == Network
                   case Broken(cause) => kind == cause
  {
    hide IsFor, Cyclic, Steady, Acceptable;
    if p.keys == [] {
      OffsetBelow(p, headers, body, t, 0);
    } else if p.keys[Cyclic(|p.keys|, t.start, |p.keys| - 1)].secret.Some? {
      assert |p.keys| - 1 in t.offsets;
    }
  }

  /** A walk starts with the key at `start`, if that is usable. */
  lemma StartsWith<Body>(p: Provider, config: RetryConfig, reply: nat -> Reply, headers: Headers, body: Body,
                         t: Trail<Body>, result: KeyResult)
    requires Walked(p, config, reply, headers, body, t, result)
    requires t.start < |p.keys| && p.keys[t.start].secret.Some?
    ensures t.sent != [] && t.offsets[0] == 0 && IsFor(p, t.start, headers, body, t.sent[0])
  {
    var upto := if result.Failed? then |p.keys| else t.offsets[|t.sent| - 1] + 1;
    Wrap(|p.keys|, t.start);
    assert Cyclic(|p.keys|, t.start, 0) == t.start;
    assert 0 in t.offsets;
    var n :| 0 <= n < |t.offsets| && t.offsets[n] == 0;
    OffsetsAscend(p, config, reply, headers, body, t, upto, 0, n);
  }

  /** No usable key is passed over on the way to send `n`. */
  lemma NothingBetween<Body>(p: Provider, config: RetryConfig, reply: nat -> Reply, headers: Headers, body: Body,
                             t: Trail<Body>, upto: nat, n: nat, o: nat)
    requires upto <= |p.keys| && Follows(p, config, reply, headers, body, t, upto) && n < |t.sent|
    requires o < t.offsets[n] && (n > 0 ==> t.offsets[n - 1] < o)
    ensures p.keys[Cyclic(|p.keys|, t.start, o)].secret.None?
  {
    hide Steady, IsFor, Cyclic;
    if p.keys[Cyclic(|p.keys|, t.start, o)].secret.Some? {
      var k :| 0 <= k < |t.offsets| && t.offsets[k] == o;
      if k < n {
        OffsetsAscend(p, config, reply, headers, body, t, upto, k, n - 1);
      } else {
        OffsetsAscend(p, config, reply, headers, body, t, upto, n, k);
      }
    }
  }

  lemma WalkedCompletely<Body>(p: Provider, config: RetryConfig, reply: nat -> Reply, headers: Headers, body: Body,
                               t: Trail<Body>, result: KeyResult) returns (upto: nat)
    requires Walked(p, config, reply, headers, body, t, result)
    ensures upto <= |p.keys| && Follows(p, config, reply, headers, body, t, upto)
    ensures forall n :: 0 <= n < |t.sent| ==> t.offsets[n] < upto
  {
    upto := if result.Failed? then |p.keys| else t.offsets[|t.sent| - 1] + 1;
  }

  /** The sends follow the cyclic order from the key at `start`: each is for the key at its offset and carries that
      key's headers, only unusable keys are passed over, and after a send the same key is sent again if and only if it
      has retries left and the reply was a configured status, a network error or a timeout; otherwise the next key's
      turn came because the reply was an error, a status that triggers retries, a server error or 429. */
  lemma SendsInOrder<Body>(p: Provider, config: RetryConfig, reply: nat -> Reply, headers: Headers, body: Body,
                           t: Trail<Body>, result: KeyResult, n: nat)
    requires Walked(p, config, reply, headers, body, t, result) && n < |t.sent|
    ensures |t.offsets| == |t.sent| && t.offsets[n] < |p.keys|
    ensures IsFor(p, Cyclic(|p.keys|, t.start, t.offsets[n]), headers, body, t.sent[n])
    ensures forall o :: (if n == 0 then 0 else t.offsets[n - 1] + 1) <= o < t.offsets[n] ==>
              p.keys[Cyclic(|p.keys|, t.start, o)].secret.None?
    ensures n == 0 ==> t.sent[n].retry == 0
    ensures n > 0 ==>
              var again := t.sent[n - 1].retry < config.maxRetries
                           && match reply(t.base + n - 1)
                              case Status(code) => code in config.retryable
                              case Broken(kind) => kind == Network || kind == Timeout;
              && (again <==> t.offsets[n] == t.offsets[n - 1])
              && (again ==> t.sent[n].retry == t.sent[n - 1].retry + 1)
              && (!again ==>
                    && t.offsets[n - 1] < t.offsets[n] && t.sent[n].retry == 0
                    && match reply(t.base + n - 1)
                       case Status(code) => code in config.retryable || 500 <= code < 600 || code == 429
                       case Broken(_) => true)
  {
    hide IsFor, LastError, Cyclic;
    var upto := WalkedCompletely(p, config, reply, headers, body, t, result);
    assert t.offsets[n] < upto;
    forall o | (if n == 0 then 0 else t.offsets[n - 1] + 1) <= o < t.offsets[n]
      ensures p.keys[Cyclic(|p.keys|, t.start, o)].secret.None?
    {
      NothingBetween(p, config, reply, headers, body, t, upto, n, o);
    }
    if n > 0 {
      assert Proceeds(config, reply(t.base + n - 1), t.offsets[n - 1], t.sent[n - 1].retry, t.offsets[n],
                      t.sent[n].retry);
    }
  }

  // ----- How a trail grows -----

  /** What the sends for one key come to, in terms of the replies. */
  lemma VisitFacts(p: Provider, config: RetryConfig, reply: nat -> Reply, index: nat, first: nat)
    requires index < |p.keys| && p.keys[index].secret.Some?
    ensures var v := VisitKey(p, config, reply, index, first);
            var last := reply(first + v.sends - 1);
            && 1 <= v.sends <= config.maxRetries + 1
            && (forall k :: first <= k < first + v.sends - 1 ==> RetryWorthy(config, reply(k)))
            && (RetryWorthy(config, last) ==> v.sends == config.maxRetries + 1)
            && (GoodVisit(v) <==> Acceptable(config, last))
            && (GoodVisit(v) ==> last.Status? && v.outcome == Some(Response(last.code)))
            && ErrorOf(v) == (match last case Status(_) => Network case Broken(kind) => kind)
  {
    FirstSettledReply(config, reply, first, 0);
  }

  /** The trail with the sends of one more key. */
  function Extended<Body>(t: Trail<Body>, more: seq<Sent<Outgoing<Body>>>, offset: nat): Trail<Body> {
    t.(sent := t.sent + more, offsets := t.offsets + seq(|more|, _ => offset))
  }

  /** An unusable key leaves no trace. */
  lemma SkipFollows<Body>(p: Provider, config: RetryConfig, reply: nat -> Reply, headers: Headers, body: Body,
                          t: Trail<Body>, offset: nat)
    requires offset < |p.keys| && Follows(p, config, reply, headers, body, t, offset)
    requires p.keys[Cyclic(|p.keys|, t.start, offset)].secret.None?
    ensures Follows(p, config, reply, headers, body, t, offset + 1)
  {
  }

  lemma ExtendedPlaced<Body>(p: Provider, headers: Headers, body: Body, t: Trail<Body>, offset: nat, m: nat)
    requires offset < |p.keys| && Placed(p, headers, body, t, offset)
    requires p.keys[Cyclic(|p.keys|, t.start, offset)].secret.Some?
    ensures var request := RequestFor(p, Cyclic(|p.keys|, t.start, offset), headers, body);
            Placed(p, headers, body, Extended(t, Sends(request, m), offset), offset + 1)
  {
    hide Sends, RequestFor;
    var request := RequestFor(p, Cyclic(|p.keys|, t.start, offset), headers, body);
    var t' := Extended(t, Sends(request, m), offset);
    forall n | 0 <= n < |t'.sent|
      ensures t'.offsets[n] < offset + 1
              && IsFor(p, Cyclic(|p.keys|, t.start, t'.offsets[n]), headers, body, t'.sent[n])
    {
      if n < |t.sent| {
        assert t'.sent[n] == t.sent[n] && t'.offsets[n] == t.offsets[n];
      } else {
        SendsAt(request, m, n - |t.sent|);
      }
    }
  }

  lemma ExtendedSteady<Body>(config: RetryConfig, reply: nat -> Reply, t: Trail<Body>, request: Outgoing<Body>,
                             offset: nat, m: nat)
    requires |t.offsets| == |t.sent| && Steady(config, reply, t) && Unserved(config, reply, t)
    requires forall k :: 0 <= k < |t.sent| ==> t.offsets[k] < offset
    requires m <= config.maxRetries + 1
    requires forall k :: t.base + |t.sent| <= k < t.base + |t.sent| + m - 1 ==> RetryWorthy(config, reply(k))
    ensures Steady(config, reply, Extended(t, Sends(request, m), offset))
  {
    hide Sends, RetryWorthy, Acceptable;
    var t', first := Extended(t, Sends(request, m), offset), |t.sent|;
    if m > 0 { SendsAt(request, m, 0); }
    forall n | 0 < n < |t'.sent|
      ensures Proceeds(config, reply(t.base + n - 1), t'.offsets[n - 1], t'.sent[n - 1].retry,
                       t'.offsets[n], t'.sent[n].retry)
    {
      if n < first {
        assert t'.sent[n - 1] == t.sent[n - 1] && t'.sent[n] == t.sent[n];
      } else if n == first {
        assert t'.sent[n - 1] == t.sent[n - 1] && t'.offsets[n - 1] == t.offsets[n - 1];
      } else {
        SendsAt(request, m, n - first);
        SendsAt(request, m, n - 1 - first);
      }
    }
  }

  lemma ExtendedCovers<Body>(p: Provider, t: Trail<Body>, more: seq<Sent<Outgoing<Body>>>, offset: nat)
    requires offset < |p.keys| && Covers(p, t, offset) && more != []
    ensures Covers(p, Extended(t, more, offset), offset + 1)
  {
    var t' := Extended(t, more, offset);
    assert t'.offsets[|t.offsets|] == offset;
    forall o | 0 <= o < offset + 1 && p.keys[Cyclic(|p.keys|, t.start, o)].secret.Some? ensures o in t'.offsets {
      if o < offset { assert o in t.offsets; }
    }
  }

  /** The sends for one key, after those for the keys before it. */
  lemma VisitFollows<Body>(p: Provider, config: RetryConfig, reply: nat -> Reply, headers: Headers, body: Body,
                           t: Trail<Body>, offset: nat, m: nat)
    requires offset < |p.keys| && Follows(p, config, reply, headers, body, t, offset) && Unserved(config, reply, t)
    requires p.keys[Cyclic(|p.keys|, t.start, offset)].secret.Some?
    requires 1 <= m <= config.maxRetries + 1
    requires forall k :: t.base + |t.sent| <= k < t.base + |t.sent| + m - 1 ==> RetryWorthy(config, reply(k))
    ensures var request := RequestFor(p, Cyclic(|p.keys|, t.start, offset), headers, body);
            Follows(p, config, reply, headers, body, Extended(t, Sends(request, m), offset), offset + 1)
  {
    hide Sends, RequestFor, Steady, Covers, Proceeds, IsFor, RetryWorthy;
    var request := RequestFor(p, Cyclic(|p.keys|, t.start, offset), headers, body);
    ExtendedPlaced(p, headers, body, t, offset, m);
    ExtendedSteady(config, reply, t, request, offset, m);
    ExtendedCovers(p, t, Sends(request, m), offset);
  }

  /** The trail after one more key of the walk. */
  function AfterKey<Body>(p: Provider, config: RetryConfig, reply: nat -> Reply, headers: Headers, body: Body,
                          t: Trail<Body>, offset: nat): Trail<Body>
    requires offset < |p.keys|
  {
    var index := Cyclic(|p.keys|, t.start, offset);
    var v := VisitKey(p, config, reply, index, t.base + |t.sent|);
    if p.keys[index].secret.None? then t else Extended(t, Sends(RequestFor(p, index, headers, body), v.sends), offset)
  }

  lemma KeyFollows<Body>(p: Provider, config: RetryConfig, reply: nat -> Reply, headers: Headers, body: Body,
                         t: Trail<Body>, offset: nat)
    requires offset < |p.keys| && Follows(p, config, reply, headers, body, t, offset) && Unserved(config, reply, t)
    ensures Follows(p, config, reply, headers, body, AfterKey(p, config, reply, headers, body, t, offset), offset + 1)
  {
    hide Follows, VisitKey, RetryWorthy;
    var index := Cyclic(|p.keys|, t.start, offset);
    if p.keys[index].secret.None? {
      SkipFollows(p, config, reply, headers, body, t, offset);
    } else {
      VisitFacts(p, config, reply, index, t.base + |t.sent|);
      VisitFollows(p, config, reply, headers, body, t, offset,
                   VisitKey(p, config, reply, index, t.base + |t.sent|).sends);
    }
  }

  /** The trail after the sends for one usable key, the last of which was answered by `last`. */
  lemma ExtendedEnds<Body>(p: Provider, config: RetryConfig, reply: nat -> Reply, t: Trail<Body>,
                           request: Outgoing<Body>, offset: nat, m: nat)
    requires |t.offsets| == |t.sent| && m >= 1 && offset < |p.keys|
    requires p.keys[Cyclic(|p.keys|, t.start, offset)].secret.Some?
    ensures var t', last := Extended(t, Sends(request, m), offset), reply(t.base + |t.sent| + m - 1);
            && t'.sent != [] && |t'.offsets| == |t'.sent| == |t.sent| + m && t'.offsets[|t'.sent| - 1] == offset
            && t'.start == t.start && t'.base == t.base
            && t'.sent[|t'.sent| - 1].retry == m - 1
            && LastError(p, reply, t', offset + 1) == match last case Status(_) => Network case Broken(kind) => kind
  {
    hide Sends, Cyclic;
    SendsAt(request, m, m - 1);
  }

  /** A walk whose last answer can be passed back is served by the key it was for. */
  lemma AcceptableServes<Body>(p: Provider, config: RetryConfig, reply: nat -> Reply, headers: Headers, body: Body,
                               t: Trail<Body>, offset: nat, code: nat)
    requires offset < |p.keys| && Follows(p, config, reply, headers, body, t, offset + 1)
    requires t.sent != [] && |t.offsets| == |t.sent| && t.offsets[|t.sent| - 1] == offset
    requires reply(t.base + |t.sent| - 1) == Status(code) && Acceptable(config, Status(code))
    ensures Walked(p, config, reply, headers, body, t, Served(p.keys[Cyclic(|p.keys|, t.start, offset)].id, code))
  {
  }

  lemma UsableServes<Body>(p: Provider, config: RetryConfig, reply: nat -> Reply, headers: Headers, body: Body,
                           t: Trail<Body>, offset: nat)
    requires offset < |p.keys| && Follows(p, config, reply, headers, body, t, offset) && Unserved(config, reply, t)
    requires |t.offsets| == |t.sent| && p.keys[Cyclic(|p.keys|, t.start, offset)].secret.Some?
    ensures var index := Cyclic(|p.keys|, t.start, offset);
            var v := VisitKey(p, config, reply, index, t.base + |t.sent|);
            var t' := AfterKey(p, config, reply, headers, body, t, offset);
            if GoodVisit(v) then
              Walked(p, config, reply, headers, body, t', Served(p.keys[index].id, v.outcome.value.code))
            else
              Unserved(config, reply, t') && ErrorOf(v) == LastError(p, reply, t', offset + 1)
  {
    hide Follows, VisitKey, RetryWorthy, Sends, ErrorOf, Acceptable, Cyclic, LastError, RequestFor, Walked, Extended;
    hide GoodVisit;
    var index := Cyclic(|p.keys|, t.start, offset);
    var first := t.base + |t.sent|;
    var v, t' := VisitKey(p, config, reply, index, first), AfterKey(p, config, reply, headers, body, t, offset);
    KeyFollows(p, config, reply, headers, body, t, offset);
    VisitFacts(p, config, reply, index, first);
    ExtendedEnds(p, config, reply, t, RequestFor(p, index, headers, body), offset, v.sends);
    if GoodVisit(v) {
      AcceptableServes(p, config, reply, headers, body, t', offset, v.outcome.value.code);
    }
  }

  lemma KeyServes<Body>(p: Provider, config: RetryConfig, reply: nat -> Reply, headers: Headers, body: Body,
                        t: Trail<Body>, offset: nat)
    requires offset < |p.keys| && Follows(p, config, reply, headers, body, t, offset) && Unserved(config, reply, t)
    ensures var index := Cyclic(|p.keys|, t.start, offset);
            var v := VisitKey(p, config, reply, index, t.base + |t.sent|);
            var t' := AfterKey(p, config, reply, headers, body, t, offset);
            if GoodVisit(v) then
              Walked(p, config, reply, headers, body, t', Served(p.keys[index].id, v.outcome.value.code))
            else
              Unserved(config, reply, t') && ErrorOf(v) == LastError(p, reply, t', offset + 1)
  {
    assert |t.offsets| == |t.sent|;
    if p.keys[Cyclic(|p.keys|, t.start, offset)].secret.None? {
      hide Follows;
    } else {
      hide Follows, VisitKey, GoodVisit, ErrorOf, LastError, Walked, AfterKey, Unserved;
      UsableServes(p, config, reply, headers, body, t, offset);
    }
  }

  // ----- The code -----

  /** The loop body: one key, skipped when its headers cannot be built. */
  method TryKey<Body>(p: Provider, index: nat, config: RetryConfig, upstream: Upstream<Outgoing<Body>>,
                      headers: Headers, body: Body, draws: nat -> nat)
    returns (v: Visit)
    requires index < |p.keys| && config.maxRetries <= 64
    modifies upstream
    ensures v == VisitKey(p, config, upstream.reply, index, |old(upstream.log)|)
    ensures upstream.log == old(upstream.log)
                            + if p.keys[index].secret.None? then []
                              else Sends(RequestFor(p, index, headers, body), v.sends)
    ensures |upstream.log| == |old(upstream.log)| + v.sends
    ensures Extends(old(upstream.log), upstream.log, p, headers, body)
  {
    if p.keys[index].secret.None? {
      return Visit(index, |upstream.log|, 0, None);
    }
    var before := upstream.log;
    var merged := MergeHeaders(headers, ProviderHeaders(p.auth, p.keys[index].secret.value));
    var request := Outgoing(p.backendId, p.keys[index].id, merged, body);
    var r := ExecuteWithRetry(config, upstream, request, draws);
    v := Visit(index, |before|, |upstream.log| - |before|, Some(r));
    SendsExtend(before, request, v.sends, p, index, headers);
  }

  lemma Nowhere<Body>(p: Provider, config: RetryConfig, reply: nat -> Reply, headers: Headers, body: Body,
                      base: nat, start: nat)
    ensures var t := Trail(base, [], start, []);
            && Follows(p, config, reply, headers, body, t, 0) && Unserved(config, reply, t)
            && LastError(p, reply, t, 0) == Network
  {
  }

  lemma NobodyServes<Body>(p: Provider, config: RetryConfig, reply: nat -> Reply, headers: Headers, body: Body,
                           t: Trail<Body>)
    requires Follows(p, config, reply, headers, body, t, |p.keys|) && Unserved(config, reply, t)
    ensures Walked(p, config, reply, headers, body, t, Failed(LastError(p, reply, t, |p.keys|)))
  {
  }

  method ProxyRequest<Body>(p: Provider, preferred: Option<KeyId>, config: RetryConfig,
                            upstream: Upstream<Outgoing<Body>>, headers: Headers, body: Body, draws: nat -> nat)
    returns (result: KeyResult, ghost t: Trail<Body>)
    requires config.maxRetries <= 64
    modifies upstream
    ensures upstream.log == old(upstream.log) + t.sent && t.base == |old(upstream.log)|
    ensures t.start == StartIndex(p, preferred)
    ensures Walked(p, config, upstream.reply, headers - HOP_HEADERS, body, t, result)
    ensures var w := WalkFrom(p, config, upstream.reply, preferred, |old(upstream.log)|);
            result == w.result && |upstream.log| == |old(upstream.log)| + TotalSends(w.visits)
    ensures Extends(old(upstream.log), upstream.log, p, headers - HOP_HEADERS, body)
  {
    hide WalkKeys, VisitKey, From, ErrorOf, StartIndex, TotalSends, Follows, Unserved, LastError, Walked;
    var kept := headers - HOP_HEADERS;
    var start := StartIndex(p, preferred);
    var lastError := Network;
    ghost var base := |upstream.log|;
    ghost var w := WalkFrom(p, config, upstream.reply, preferred, base);
    t := Trail(base, [], start, []);
    Nowhere(p, config, upstream.reply, kept, body, base, start);
    for offset := 0 to |p.keys|
      invariant var rest := WalkKeys(p, config, upstream.reply, start, offset, |upstream.log|, lastError);
                rest.result == w.result && |upstream.log| + TotalSends(rest.visits) == base + TotalSends(w.visits)
      invariant Extends(old(upstream.log), upstream.log, p, kept, body)
      invariant upstream.log == old(upstream.log) + t.sent && t.base == base && t.start == start
      invariant Follows(p, config, upstream.reply, kept, body, t, offset) && Unserved(config, upstream.reply, t)
      invariant lastError == LastError(p, upstream.reply, t, offset)
    {
      var index := Cyclic(|p.keys|, start, offset);
      WalkUnfolds(p, config, upstream.reply, start, offset, |upstream.log|, lastError);
      KeyFollows(p, config, upstream.reply, kept, body, t, offset);
      KeyServes(p, config, upstream.reply, kept, body, t, offset);
      ghost var before := upstream.log;
      var v := TryKey(p, index, config, upstream, kept, body, draws);
      ExtendsTwice(old(upstream.log), before, upstream.log, p, kept, body);
      t := AfterKey(p, config, upstream.reply, kept, body, t, offset);
      if GoodVisit(v) {
        return Served(p.keys[index].id, v.outcome.value.code), t;
      }
      lastError := ErrorOf(v);
    }
    WalkEnds(p, config, upstream.reply, start, |upstream.log|, lastError);
    NobodyServes(p, config, upstream.reply, kept, body, t);
    return Failed(lastError), t;
  }
}
