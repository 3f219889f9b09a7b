/** A provider backend and the walk over its API keys. */
module KeyFailover {
  import opened Wrappers
  import opened AuthHeaders
  import opened HttpClient
  import opened Modulo

  type KeyId = nat

  /** `secret` is None for a key that cannot be decrypted or does not make a valid header. */
  datatype ProviderKey = ProviderKey(id: KeyId, secret: Option<string>)

  datatype Provider = Provider(
    backendId: nat, providerId: string, auth: AuthType, keys: seq<ProviderKey>, models: seq<string>)

  function FindFrom(keys: seq<ProviderKey>, id: KeyId, from: nat): (r: Option<nat>)
    requires from <= |keys|
    ensures r.Some? ==> from <= r.value < |keys| && keys[r.value].id == id
    ensures r.None? <==> forall i :: from <= i < |keys| ==> keys[i].id != id
    ensures r.Some? ==> forall i :: from <= i < r.value ==> keys[i].id != id
    decreases |keys| - from
  {
    if from == |keys| then None
    else if keys[from].id == id then Some(from)
    else FindFrom(keys, id, from + 1)
  }

  function FindKeyIndex(keys: seq<ProviderKey>, id: KeyId): (r: Option<nat>)
    ensures r.Some? ==> r.value < |keys| && keys[r.value].id == id
    ensures r.None? <==> forall i :: 0 <= i < |keys| ==> keys[i].id != id
    ensures r.Some? ==> forall i :: 0 <= i < r.value ==> keys[i].id != id
  {
    FindFrom(keys, id, 0)
  }

  function StartIndex(p: Provider, preferred: Option<KeyId>): (index: nat)
    ensures p.keys != [] ==> index < |p.keys|
  {
    if preferred.None? then 0
    else
      var found := FindKeyIndex(p.keys, preferred.value);
      if found.Some? then found.value else 0
  }

  /** 5xx or 429. */
  predicate RetryableStatus(code: nat) {
    500 <= code <= 599 || code == 429
  }

  datatype KeyResult = Served(key: KeyId, code: nat) | Failed(kind: ErrorKind)

  /** What became of one key: skipped as unusable, or tried with `sends` sends starting at number `first`. */
  datatype Visit = Visit(index: nat, first: nat, sends: nat, outcome: Option<HttpResult>)

  predicate GoodVisit(v: Visit) {
    v.outcome.Some? && v.outcome.value.Response? && !RetryableStatus(v.outcome.value.code)
  }

  datatype Walk = Walk(result: KeyResult, visits: seq<Visit>)

  function VisitKey(p: Provider, config: RetryConfig, reply: nat -> Reply, index: nat, first: nat): (v: Visit)
    requires index < |p.keys|
    ensures v.index == index && v.sends <= config.maxRetries + 1
  {
    if p.keys[index].secret.None? then Visit(index, first, 0, None)
    else
      var run := Retry(config, reply, first, 0);
      Visit(index, first, run.sends, Some(run.result))
  }

  /** The error left behind by a visit that did not serve the request. */
  function ErrorOf(v: Visit): ErrorKind {
    match v.outcome
    case None => Internal
    case Some(Response(_)) => Network
    case Some(HttpError(kind)) => kind
  }

  /** The position `k` steps after `start` in cyclic order. */
  function Cyclic(n: nat, start: nat, k: nat): (index: nat)
    requires n > 0
    ensures index < n
  {
    (start + k) % n
  }

  /** The walk from `offset` on, in the cyclic order that starts at `start`. */
  function WalkKeys(p: Provider, config: RetryConfig, reply: nat -> Reply, start: nat, offset: nat, first: nat,
                    last: ErrorKind): Walk
    requires offset <= |p.keys|
    decreases |p.keys| - offset
  {
    if offset == |p.keys| then Walk(Failed(last), [])
    else
      var v := VisitKey(p, config, reply, Cyclic(|p.keys|, start, offset), first);
      if GoodVisit(v) then Walk(Served(p.keys[v.index].id, v.outcome.value.code), [v])
      else
        var rest := WalkKeys(p, config, reply, start, offset + 1, first + v.sends, ErrorOf(v));
        Walk(rest.result, [v] + rest.visits)
  }

  function TotalSends(visits: seq<Visit>): nat {
    if visits == [] then 0 else visits[0].sends + TotalSends(visits[1..])
  }

  /** The visits follow the cyclic order from `offset`; all but the last fail, and the last one serves the
      request or is the last key there is. */
  ghost predicate InOrder(p: Provider, w: Walk, start: nat, offset: nat, last: ErrorKind) {
    var n := |w.visits|;
    && offset + n <= |p.keys|
    && (forall j :: 0 <= j < n ==> w.visits[j].index == Cyclic(|p.keys|, start, offset + j))
    && (forall j :: 0 <= j < n - 1 ==> !GoodVisit(w.visits[j]))
    && (w.result.Served? ==>
          && n > 0 && GoodVisit(w.visits[n - 1])
          && w.result == Served(p.keys[w.visits[n - 1].index].id, w.visits[n - 1].outcome.value.code))
    && (w.result.Failed? ==>
          && offset + n == |p.keys|
          && (n > 0 ==> !GoodVisit(w.visits[n - 1]))
          && w.result.kind == if n > 0 then ErrorOf(w.visits[n - 1]) else last)
  }

  lemma InOrderStep(p: Provider, v: Visit, rest: Walk, start: nat, offset: nat, last: ErrorKind)
    requires offset < |p.keys| && v.index == Cyclic(|p.keys|, start, offset) && !GoodVisit(v)
    requires InOrder(p, rest, start, offset + 1, ErrorOf(v))
    ensures InOrder(p, Walk(rest.result, [v] + rest.visits), start, offset, last)
  {
  }

  lemma {:induction false} WalkInOrder(p: Provider, config: RetryConfig, reply: nat -> Reply, start: nat, offset: nat,
                                       first: nat, last: ErrorKind)
    requires offset <= |p.keys|
    ensures InOrder(p, WalkKeys(p, config, reply, start, offset, first, last), start, offset, last)
    decreases |p.keys| - offset
  {
    hide VisitKey, Cyclic;
    if offset == |p.keys| {
    } else {
      var v := VisitKey(p, config, reply, Cyclic(|p.keys|, start, offset), first);
      if !GoodVisit(v) {
        WalkInOrder(p, config, reply, start, offset + 1, first + v.sends, ErrorOf(v));
        var rest := WalkKeys(p, config, reply, start, offset + 1, first + v.sends, ErrorOf(v));
        InOrderStep(p, v, rest, start, offset, last);
      }
    }
  }

  lemma OneMore(n: nat, m: nat)
    ensures (n + 1) * m == n * m + m
    ensures n * m >= 0
  {
  }

  /** No key costs more than one send and its retries. */
  lemma {:induction false} WalkSends(p: Provider, config: RetryConfig, reply: nat -> Reply, start: nat, offset: nat,
                                     first: nat, last: ErrorKind)
    requires offset <= |p.keys|
    ensures TotalSends(WalkKeys(p, config, reply, start, offset, first, last).visits)
         <= (|p.keys| - offset) * (config.maxRetries + 1)
    decreases |p.keys| - offset
  {
    hide VisitKey, Cyclic, GoodVisit;
    if offset == |p.keys| {
    } else {
      var v := VisitKey(p, config, reply, Cyclic(|p.keys|, start, offset), first);
      WalkSends(p, config, reply, start, offset + 1, first + v.sends, ErrorOf(v));
      var rest := WalkKeys(p, config, reply, start, offset + 1, first + v.sends, ErrorOf(v)).visits;
      assert ([v] + rest)[1..] == rest && [v][1..] == [];
      OneMore(|p.keys| - offset - 1, config.maxRetries + 1);
    }
  }

  lemma Wrap(n: nat, x: nat)
    requires n > 0 && x < 2 * n
    ensures x % n == if x < n then x else x - n
  {
    if x < n { Quotient(0, n, x, x); } else { Quotient(1, n, x - n, x); }
  }

  /** Each position is followed by the next one, and the last by the first. */
  lemma {:induction false} CyclicNext(n: nat, start: nat, k: nat)
    requires start < n
    ensures Cyclic(n, start, 0) == start
    ensures var now := Cyclic(n, start, k); Cyclic(n, start, k + 1) == if now == n - 1 then 0 else now + 1
  {
    var now := Cyclic(n, start, k);
    Wrap(n, start);
    DivMod(start + k, n);
    var q := (start + k) / n;
    if now == n - 1 {
      assert n * (q + 1) == n * q + n;
      Quotient(q + 1, n, 0, start + k + 1);
    } else {
      Quotient(q, n, now + 1, start + k + 1);
    }
  }

  lemma {:induction false} CyclicDistinct(n: nat, start: nat, i: nat, j: nat)
    requires i < j < n && start < n
    ensures Cyclic(n, start, i) != Cyclic(n, start, j)
  {
    Wrap(n, start + i);
    Wrap(n, start + j);
  }

  function WalkFrom(p: Provider, config: RetryConfig, reply: nat -> Reply, preferred: Option<KeyId>, first: nat): Walk {
    WalkKeys(p, config, reply, StartIndex(p, preferred), 0, first, Network)
  }

  lemma TotalNone()
    ensures TotalSends([]) == 0
  {
  }

  lemma TotalCons(v: Visit, rest: seq<Visit>)
    ensures TotalSends([v] + rest) == v.sends + TotalSends(rest)
  {
    assert ([v] + rest)[1..] == rest;
  }

  lemma TakeCons<T>(v: T, rest: seq<T>, j: nat)
    requires 1 <= j <= |rest|
    ensures ([v] + rest)[..j] == [v] + rest[..j - 1] && ([v] + rest)[j] == rest[j - 1]
  {
  }

  /** The visits of a walk that has not ended are its first one and those of the walk that goes on. */
  lemma VisitsUnfold(p: Provider, config: RetryConfig, reply: nat -> Reply, start: nat, offset: nat, first: nat,
                     last: ErrorKind)
    requires offset < |p.keys|
    ensures var v := VisitKey(p, config, reply, Cyclic(|p.keys|, start, offset), first);
            var rest := WalkKeys(p, config, reply, start, offset + 1, first + v.sends, ErrorOf(v)).visits;
            WalkKeys(p, config, reply, start, offset, first, last).visits == [v] + if GoodVisit(v) then [] else rest
  {
    hide VisitKey, Cyclic, GoodVisit, ErrorOf;
  }

  lemma NoVisits(p: Provider, config: RetryConfig, reply: nat -> Reply, start: nat, first: nat, last: ErrorKind)
    ensures WalkKeys(p, config, reply, start, |p.keys|, first, last).visits == []
  {
  }

  /** What became of each visited key is decided by the upstream's replies to the sends made for it, which follow
      those made for the keys before it. */
  lemma {:induction false} VisitIsRun(p: Provider, config: RetryConfig, reply: nat -> Reply, start: nat, offset: nat,
                                      first: nat, last: ErrorKind, j: nat)
    requires offset <= |p.keys| && j < |WalkKeys(p, config, reply, start, offset, first, last).visits|
    ensures var visits := WalkKeys(p, config, reply, start, offset, first, last).visits;
            && p.keys != []
            && visits[j] == VisitKey(p, config, reply, Cyclic(|p.keys|, start, offset + j),
                                     first + TotalSends(visits[..j]))
    decreases j
  {
    hide WalkKeys, VisitKey, Cyclic, GoodVisit, ErrorOf, TotalSends;
    if offset == |p.keys| {
      NoVisits(p, config, reply, start, first, last);
      assert false;
    }
    VisitsUnfold(p, config, reply, start, offset, first, last);
    var v := VisitKey(p, config, reply, Cyclic(|p.keys|, start, offset), first);
    var visits := WalkKeys(p, config, reply, start, offset, first, last).visits;
    if j == 0 {
      TotalNone();
      assert visits[..0] == [];
    } else {
      var rest := WalkKeys(p, config, reply, start, offset + 1, first + v.sends, ErrorOf(v)).visits;
      VisitIsRun(p, config, reply, start, offset + 1, first + v.sends, ErrorOf(v), j - 1);
      TakeCons(v, rest, j);
      TotalCons(v, rest[..j - 1]);
    }
  }

  /** Starting from the preferred key (or the first one), no key is tried twice, the request is served by the
      first key in cyclic order that gives a response which is neither 5xx nor 429, and it fails only if every
      key failed; each visit is the retry run on the upstream's next replies. */
  lemma {:induction false} KeyFailoverOrder(p: Provider, config: RetryConfig, reply: nat -> Reply,
                                            preferred: Option<KeyId>, first: nat)
    ensures var w, n := WalkFrom(p, config, reply, preferred, first), |p.keys|;
            && |w.visits| <= n
            && (forall j :: 0 <= j < |w.visits| ==>
                  w.visits[j] == VisitKey(p, config, reply, Cyclic(n, StartIndex(p, preferred), j),
                                          first + TotalSends(w.visits[..j])))
            && (forall i, j :: 0 <= i < j < |w.visits| ==> w.visits[i].index != w.visits[j].index)
            && (w.result.Served? <==> exists j :: 0 <= j < |w.visits| && GoodVisit(w.visits[j]))
            && (forall j :: 0 <= j < |w.visits| - 1 ==> !GoodVisit(w.visits[j]))
            && (w.result.Served? ==> !RetryableStatus(w.result.code))
            && (w.result.Failed? ==> |w.visits| == n)
  {
    hide WalkKeys, VisitKey, Cyclic, TotalSends, StartIndex;
    var w := WalkFrom(p, config, reply, preferred, first);
    var start, n := StartIndex(p, preferred), |p.keys|;
    WalkInOrder(p, config, reply, start, 0, first, Network);
    forall j | 0 <= j < |w.visits|
      ensures w.visits[j] == VisitKey(p, config, reply, Cyclic(n, start, j), first + TotalSends(w.visits[..j]))
    {
      VisitIsRun(p, config, reply, start, 0, first, Network, j);
    }
    forall i, j | 0 <= i < j < |w.visits| ensures w.visits[i].index != w.visits[j].index {
      CyclicDistinct(n, start, i, j);
    }
  }

  /** The walk starts at the preferred key if there is one and the provider still has it, and else at the first key. */
  lemma {:induction false} StartsAtPreferred(p: Provider, preferred: Option<KeyId>)
    requires p.keys != []
    ensures var start := Cyclic(|p.keys|, StartIndex(p, preferred), 0);
            if preferred.Some? && exists i :: 0 <= i < |p.keys| && p.keys[i].id == preferred.value then
              p.keys[start].id == preferred.value && forall i :: 0 <= i < start ==> p.keys[i].id != preferred.value
            else start == 0
  {
    Wrap(|p.keys|, StartIndex(p, preferred));
  }

  lemma StartsAt(p: Provider, index: nat)
    requires index < |p.keys| && forall i :: 0 <= i < index ==> p.keys[i].id != p.keys[index].id
    ensures StartIndex(p, Some(p.keys[index].id)) == index
  {
  }

  /** One step of the walk, as its callers see it. */
  lemma WalkUnfolds(p: Provider, config: RetryConfig, reply: nat -> Reply, start: nat, offset: nat, first: nat,
                    last: ErrorKind)
    requires offset < |p.keys|
    ensures var v := VisitKey(p, config, reply, Cyclic(|p.keys|, start, offset), first);
            var w := WalkKeys(p, config, reply, start, offset, first, last);
            if GoodVisit(v) then
              w.result == Served(p.keys[v.index].id, v.outcome.value.code) && TotalSends(w.visits) == v.sends
            else
              var rest := WalkKeys(p, config, reply, start, offset + 1, first + v.sends, ErrorOf(v));
              w.result == rest.result && TotalSends(w.visits) == v.sends + TotalSends(rest.visits)
  {
    var v := VisitKey(p, config, reply, Cyclic(|p.keys|, start, offset), first);
    assert [v][1..] == [];
    if !GoodVisit(v) {
      var rest := WalkKeys(p, config, reply, start, offset + 1, first + v.sends, ErrorOf(v));
      assert ([v] + rest.visits)[1..] == rest.visits;
    }
  }

  lemma WalkEnds(p: Provider, config: RetryConfig, reply: nat -> Reply, start: nat, first: nat, last: ErrorKind)
    ensures var w := WalkKeys(p, config, reply, start, |p.keys|, first, last);
            w.result == Failed(last) && TotalSends(w.visits) == 0
  {
  }
}
