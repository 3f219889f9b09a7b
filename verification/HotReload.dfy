/**
 Requests while the routing tables are being replaced. A reload builds a registry and a resolver, from the database
 or from the environment, and stores them one after the other; requests load the resolver once and the registry once
 per target. Reloads and requests interleave arbitrarily.
 */
module HotReload {
  import opened AuthHeaders
  import opened HttpClient
  import opened KeyFailover
  import opened ProxyProvider
  import opened Loader
  import opened ModelResolver
  import opened Registry
  import opened RequestBody
  import PoolFailover
  import ProxyHandler

  datatype Phase =
    | Arrived
    | Routed(targets: seq<Target>, next: nat)
    | InPool(targets: seq<Target>, next: nat, pool: seq<Provider>, source: nat)

  /** A send, with the request, target and registry that led to it. */
  datatype Sending = Sending(request: nat, target: Target, backend: nat, body: Body, source: nat)

  /** `registries` and `resolvers` list everything ever stored; the last one is current. */
  datatype System = System(
    registries: seq<Snapshot>,
    resolvers: seq<map<string, seq<Target>>>,
    phases: map<nat, Phase>,
    sends: seq<Sending>)

  datatype Event =
    | StoreRegistry(registry: Snapshot)
    | StoreResolver(index: map<string, seq<Target>>)
    | Route(request: nat, publicModel: string, draws: Draws)
    | LoadPool(request: nat)
    | Send(request: nat, choice: nat, base: Body)
    | NextTarget(request: nat)

  function PhaseOf(s: System, request: nat): Phase {
    if request in s.phases then s.phases[request] else Arrived
  }

  /** One step; a request that is not at the right point does nothing. */
  function Step(s: System, e: Event): System
    requires s.registries != [] && s.resolvers != []
  {
    match e
    case StoreRegistry(registry) => s.(registries := s.registries + [registry])
    case StoreResolver(index) => s.(resolvers := s.resolvers + [index])
    case Route(q, publicModel, draws) =>
      if PhaseOf(s, q) == Arrived then
        var index := s.resolvers[|s.resolvers| - 1];
        s.(phases := s.phases[q := Routed(Resolved(TargetsOf(index, publicModel), draws), 0)])
      else s
    case LoadPool(q) =>
      (match PhaseOf(s, q)
       case Routed(targets, next) =>
         if next < |targets| then
           var source := |s.registries| - 1;
           var pool := FindBackends(s.registries[source], targets[next].providerId, targets[next].targetModel);
           s.(phases := s.phases[q := InPool(targets, next, pool, source)])
         else s
       case _ => s)
    case Send(q, choice, base) =>
      (match PhaseOf(s, q)
       case InPool(targets, next, pool, source) =>
         if next < |targets| && choice < |pool| && RewriteModel(base, targets[next].targetModel).Some? then
           var body := RewriteModel(base, targets[next].targetModel).value;
           s.(sends := s.sends + [Sending(q, targets[next], pool[choice].backendId, body, source)])
         else s
       case _ => s)
    case NextTarget(q) =>
      (match PhaseOf(s, q)
       case InPool(targets, next, _, _) => s.(phases := s.phases[q := Routed(targets, next + 1)])
       case _ => s)
  }

  datatype History = Begin(first: Snapshot, index: map<string, seq<Target>>) | Then(before: History, event: Event)

  function Run(h: History): (s: System)
    ensures s.registries != [] && s.resolvers != []
  {
    match h
    case Begin(first, index) => System([first], [index], map[], [])
    case Then(before, e) => Step(Run(before), e)
  }

  /** The target comes from one of the stored resolvers. */
  ghost predicate FromResolver(s: System, t: Target) {
    exists k, publicModel :: 0 <= k < |s.resolvers| && t in TargetsOf(s.resolvers[k], publicModel)
  }

  ghost predicate PhaseInv(s: System, ph: Phase) {
    match ph
    case Arrived => true
    case Routed(targets, _) => forall t :: t in targets ==> FromResolver(s, t)
    case InPool(targets, next, pool, source) =>
      && (forall t :: t in targets ==> FromResolver(s, t))
      && next < |targets| && source < |s.registries|
      && pool == FindBackends(s.registries[source], targets[next].providerId, targets[next].targetModel)
  }

  /** The registry lists backend `id` under this provider and model. */
  ghost predicate Lists(r: Snapshot, id: nat, provider: string, model: string) {
    var found := FindBackends(r, provider, model);
    exists i :: 0 <= i < |found| && found[i].backendId == id
  }

  /** What every send satisfies: one stored registry lists its backend under the target's provider and model, the
      body carries the target's model, and the target is one that was configured. */
  ghost predicate SafeSend(s: System, x: Sending) {
    && x.source < |s.registries|
    && Lists(s.registries[x.source], x.backend, x.target.providerId, x.target.targetModel)
    && CarriesModel(x.body, x.target.targetModel)
    && FromResolver(s, x.target)
  }

  ghost predicate Inv(s: System) {
    && s.registries != [] && s.resolvers != []
    && (forall q :: q in s.phases ==> PhaseInv(s, s.phases[q]))
    && (forall i :: 0 <= i < |s.sends| ==> SafeSend(s, s.sends[i]))
  }

  /** A state with more registries and resolvers stored. */
  ghost predicate Grown(s: System, s': System) {
    s.registries <= s'.registries && s.resolvers <= s'.resolvers
  }

  lemma ResolverGrown(s: System, s': System, t: Target)
    requires Grown(s, s') && FromResolver(s, t)
    ensures FromResolver(s', t)
  {
    var k, publicModel :| 0 <= k < |s.resolvers| && t in TargetsOf(s.resolvers[k], publicModel);
    assert s'.resolvers[k] == s.resolvers[k];
  }

  lemma PhaseGrown(s: System, s': System, ph: Phase)
    requires Grown(s, s') && PhaseInv(s, ph)
    ensures PhaseInv(s', ph)
  {
    if ph.Routed? || ph.InPool? {
      forall t | t in ph.targets ensures FromResolver(s', t) { ResolverGrown(s, s', t); }
    }
  }

  lemma SendGrown(s: System, s': System, x: Sending)
    requires Grown(s, s') && SafeSend(s, x)
    ensures SafeSend(s', x)
  {
    ResolverGrown(s, s', x.target);
  }

  lemma StoreKeeps(s: System, e: Event)
    requires Inv(s) && (e.StoreRegistry? || e.StoreResolver?)
    ensures Inv(Step(s, e))
  {
    var s' := Step(s, e);
    assert Grown(s, s');
    forall q | q in s'.phases ensures PhaseInv(s', s'.phases[q]) { PhaseGrown(s, s', s.phases[q]); }
    forall i | 0 <= i < |s'.sends| ensures SafeSend(s', s'.sends[i]) { SendGrown(s, s', s.sends[i]); }
  }

  /** A resolved target is one of those configured. */
  lemma ResolvedFrom(targets: seq<Target>, draws: Draws, t: Target)
    requires t in Resolved(targets, draws)
    ensures t in targets
  {
    ResolveExactly(targets, Resolved(targets, draws));
    assert t in multiset(Active(targets));
    ActiveCounts(targets, t);
    assert t in multiset(targets);
  }

  /** Steps that change only the phase of `q`. */
  lemma PhasesKeep(s: System, s': System, q: nat)
    requires Inv(s) && q in s'.phases && s' == s.(phases := s.phases[q := s'.phases[q]]) && PhaseInv(s', s'.phases[q])
    ensures Inv(s')
  {
    assert Grown(s, s');
    forall x | x in s'.phases ensures PhaseInv(s', s'.phases[x]) {
      if x != q { PhaseGrown(s, s', s.phases[x]); }
    }
    forall i | 0 <= i < |s'.sends| ensures SafeSend(s', s'.sends[i]) { SendGrown(s, s', s.sends[i]); }
  }

  lemma RouteKeeps(s: System, q: nat, publicModel: string, draws: Draws)
    requires Inv(s)
    ensures Inv(Step(s, Route(q, publicModel, draws)))
  {
    var s' := Step(s, Route(q, publicModel, draws));
    if PhaseOf(s, q) == Arrived {
      var k := |s.resolvers| - 1;
      var targets := Resolved(TargetsOf(s.resolvers[k], publicModel), draws);
      forall t | t in targets ensures FromResolver(s', t) {
        ResolvedFrom(TargetsOf(s.resolvers[k], publicModel), draws, t);
        assert t in TargetsOf(s'.resolvers[k], publicModel);
      }
      PhasesKeep(s, s', q);
    }
  }

  lemma LoadKeeps(s: System, q: nat)
    requires Inv(s)
    ensures Inv(Step(s, LoadPool(q)))
  {
    var s' := Step(s, LoadPool(q));
    var ph := PhaseOf(s, q);
    if ph.Routed? && ph.next < |ph.targets| {
      PhaseGrown(s, s', ph);
      PhasesKeep(s, s', q);
    }
  }

  lemma NextKeeps(s: System, q: nat)
    requires Inv(s)
    ensures Inv(Step(s, NextTarget(q)))
  {
    var s' := Step(s, NextTarget(q));
    var ph := PhaseOf(s, q);
    if ph.InPool? {
      PhaseGrown(s, s', ph);
      PhasesKeep(s, s', q);
    }
  }

  lemma SendKeeps(s: System, q: nat, choice: nat, base: Body)
    requires Inv(s)
    ensures Inv(Step(s, Send(q, choice, base)))
  {
    var s' := Step(s, Send(q, choice, base));
    var ph := PhaseOf(s, q);
    if ph.InPool? && choice < |ph.pool| && RewriteModel(base, ph.targets[ph.next].targetModel).Some? {
      var t := ph.targets[ph.next];
      RewriteCarries(base, t.targetModel, t.targetModel);
      assert t in ph.targets;
      assert SafeSend(s, s'.sends[|s.sends|]);
      assert Grown(s, s');
      forall x | x in s'.phases ensures PhaseInv(s', s'.phases[x]) { PhaseGrown(s, s', s.phases[x]); }
      forall i | 0 <= i < |s'.sends| ensures SafeSend(s', s'.sends[i]) { SendGrown(s, s', s'.sends[i]); }
    }
  }

  /** For every interleaving of reloads and requests, and whatever tables the reloads store, every send is safe. */
  lemma {:induction false} RoutingIsSafe(h: History)
    ensures Inv(Run(h))
  {
    if h.Begin? {
    } else {
      RoutingIsSafe(h.before);
      var s := Run(h.before);
      match h.event
      case StoreRegistry(_) => StoreKeeps(s, h.event);
      case StoreResolver(_) => StoreKeeps(s, h.event);
      case Route(q, m, draws) => RouteKeeps(s, q, m, draws);
      case LoadPool(q) => LoadKeeps(s, q);
      case Send(q, choice, base) => SendKeeps(s, q, choice, base);
      case NextTarget(q) => NextKeeps(s, q);
    }
  }

  /** Every send is safe; and if the registry it was routed by agrees with the tables that some load has read, as every
      registry loaded from the database does, its backend serves the target's provider and model by these tables. */
  lemma EverySendIsSafe(h: History, i: nat)
    requires i < |Run(h).sends|
    ensures var s, x := Run(h), Run(h).sends[i];
            && SafeSend(s, x)
            && forall t: Tables :: AgreesWithQuery(s.registries[x.source], t) ==>
                 Serves(t, x.backend, x.target.providerId, x.target.targetModel)
  {
    RoutingIsSafe(h);
    var s, x := Run(h), Run(h).sends[i];
    forall t: Tables | AgreesWithQuery(s.registries[x.source], t)
      ensures Serves(t, x.backend, x.target.providerId, x.target.targetModel)
    {
      assert AgreesOn(s.registries[x.source], t, x.target.providerId, x.target.targetModel);
    }
  }

  // ----- Reloads reach the requests that arrive after them -----

  /** `h` is how `h'` begins. */
  predicate StartOf(h: History, h': History) {
    h == h' || (h'.Then? && StartOf(h, h'.before))
  }

  /** The table that was stored last. */
  function LatestResolver(h: History): map<string, seq<Target>> {
    match h
    case Begin(_, index) => index
    case Then(_, StoreResolver(index)) => index
    case Then(before, _) => LatestResolver(before)
  }

  function LatestRegistry(h: History): Snapshot {
    match h
    case Begin(first, _) => first
    case Then(_, StoreRegistry(registry)) => registry
    case Then(before, _) => LatestRegistry(before)
  }

  /** A step stores the table it brings and no other. */
  lemma StepStores(s: System, e: Event)
    requires s.registries != [] && s.resolvers != []
    ensures Step(s, e).registries == s.registries + if e.StoreRegistry? then [e.registry] else []
    ensures Step(s, e).resolvers == s.resolvers + if e.StoreResolver? then [e.index] else []
  {
    hide FindBackends, Resolved, RewriteModel;
    assert s.registries + [] == s.registries && s.resolvers + [] == s.resolvers;
  }

  lemma {:induction false} LatestIsLast(h: History)
    ensures var s := Run(h);
            && s.registries[|s.registries| - 1] == LatestRegistry(h)
            && s.resolvers[|s.resolvers| - 1] == LatestResolver(h)
  {
    hide Step;
    if h.Begin? {
    } else {
      LatestIsLast(h.before);
      StepStores(Run(h.before), h.event);
    }
  }

  /** A request is routed by the resolver stored last, and its pool is loaded from the registry stored last. */
  lemma RoutedByLatest(h: History, q: nat, publicModel: string, draws: Draws)
    ensures PhaseOf(Run(h), q).Arrived? ==>
              PhaseOf(Run(Then(h, Route(q, publicModel, draws))), q)
              == Routed(Resolved(TargetsOf(LatestResolver(h), publicModel), draws), 0)
    ensures var ph := PhaseOf(Run(h), q);
            ph.Routed? && ph.next < |ph.targets| ==>
              var t, source := ph.targets[ph.next], |Run(h).registries| - 1;
              PhaseOf(Run(Then(h, LoadPool(q))), q)
              == InPool(ph.targets, ph.next, FindBackends(LatestRegistry(h), t.providerId, t.targetModel), source)
  {
    hide FindBackends, Resolved, TargetsOf;
    LatestIsLast(h);
  }

  /** The target comes from the resolver stored `k`-th or from a later one. */
  ghost predicate FromResolverSince(s: System, k: nat, t: Target) {
    exists j, publicModel :: k <= j < |s.resolvers| && t in TargetsOf(s.resolvers[j], publicModel)
  }

  ghost predicate FreshPhase(s: System, registriesBefore: nat, resolversBefore: nat, ph: Phase) {
    match ph
    case Arrived => true
    case Routed(targets, _) => forall t :: t in targets ==> FromResolverSince(s, resolversBefore, t)
    case InPool(targets, _, _, source) =>
      registriesBefore <= source && forall t :: t in targets ==> FromResolverSince(s, resolversBefore, t)
  }

  /** Since a state with that many tables and sends, request `q` has used none but its last tables and later ones. */
  ghost predicate Fresh(s: System, registriesBefore: nat, resolversBefore: nat, sendsBefore: nat, q: nat) {
    && s.registries != [] && s.resolvers != []
    && registriesBefore < |s.registries| && resolversBefore < |s.resolvers| && sendsBefore <= |s.sends|
    && FreshPhase(s, registriesBefore, resolversBefore, PhaseOf(s, q))
    && forall i :: sendsBefore <= i < |s.sends| && s.sends[i].request == q ==>
         registriesBefore <= s.sends[i].source && FromResolverSince(s, resolversBefore, s.sends[i].target)
  }

  lemma StillSince(s: System, s': System, k: nat, t: Target)
    requires s.resolvers <= s'.resolvers && FromResolverSince(s, k, t)
    ensures FromResolverSince(s', k, t)
  {
    var j, publicModel :| k <= j < |s.resolvers| && t in TargetsOf(s.resolvers[j], publicModel);
    assert s'.resolvers[j] == s.resolvers[j];
  }

  /** Steps that neither move `q` nor send. */
  lemma FreshKept(s: System, s': System, a: nat, b: nat, n: nat, q: nat)
    requires Fresh(s, a, b, n, q) && Grown(s, s') && s'.sends == s.sends && PhaseOf(s', q) == PhaseOf(s, q)
    ensures Fresh(s', a, b, n, q)
  {
    var ph := PhaseOf(s, q);
    if ph.Routed? || ph.InPool? {
      forall t | t in ph.targets ensures FromResolverSince(s', b, t) { StillSince(s, s', b, t); }
    }
    forall i | n <= i < |s'.sends| && s'.sends[i].request == q ensures FromResolverSince(s', b, s'.sends[i].target) {
      StillSince(s, s', b, s.sends[i].target);
    }
  }

  lemma FreshRoute(s: System, a: nat, b: nat, n: nat, q: nat, publicModel: string, draws: Draws)
    requires Fresh(s, a, b, n, q) && PhaseOf(s, q) == Arrived
    ensures Fresh(Step(s, Route(q, publicModel, draws)), a, b, n, q)
  {
    hide Resolved;
    var s', j := Step(s, Route(q, publicModel, draws)), |s.resolvers| - 1;
    var targets := Resolved(TargetsOf(s.resolvers[j], publicModel), draws);
    forall t | t in targets ensures FromResolverSince(s', b, t) {
      ResolvedFrom(TargetsOf(s.resolvers[j], publicModel), draws, t);
      assert t in TargetsOf(s'.resolvers[j], publicModel);
    }
    forall i | n <= i < |s'.sends| && s'.sends[i].request == q ensures FromResolverSince(s', b, s'.sends[i].target) {
      StillSince(s, s', b, s.sends[i].target);
    }
  }

  /** A request in a pool sends or goes on to the next target, or one with targets loads the next pool. */
  lemma FreshOwn(s: System, e: Event, a: nat, b: nat, n: nat, q: nat)
    requires Fresh(s, a, b, n, q) && (e.Send? || e == LoadPool(q) || e == NextTarget(q))
    ensures Fresh(Step(s, e), a, b, n, q)
  {
    hide RewriteModel, FindBackends, TargetsOf, FromResolverSince;
    var s' := Step(s, e);
    forall t | FromResolverSince(s, b, t) ensures FromResolverSince(s', b, t) { StillSince(s, s', b, t); }
  }

  lemma FreshStep(s: System, e: Event, a: nat, b: nat, n: nat, q: nat)
    requires Fresh(s, a, b, n, q)
    ensures Fresh(Step(s, e), a, b, n, q)
  {
    hide Resolved, RewriteModel, FindBackends, TargetsOf, FromResolverSince;
    var s' := Step(s, e);
    match e
    case StoreRegistry(_) => FreshKept(s, s', a, b, n, q);
    case StoreResolver(_) => FreshKept(s, s', a, b, n, q);
    case Route(x, m, draws) =>
      if x == q && PhaseOf(s, q) == Arrived {
        FreshRoute(s, a, b, n, q, m, draws);
      } else {
        FreshKept(s, s', a, b, n, q);
      }
    case LoadPool(x) => if x != q { FreshKept(s, s', a, b, n, q); } else { FreshOwn(s, e, a, b, n, q); }
    case Send(x, _, _) => FreshOwn(s, e, a, b, n, q);
    case NextTarget(x) => if x != q { FreshKept(s, s', a, b, n, q); } else { FreshOwn(s, e, a, b, n, q); }
  }

  /** Whatever happens after a request arrives, everything it sends is routed by the resolver that was current then or
      a later one, and goes to a pool of the registry that was current then or a later one. */
  lemma {:induction false} ReloadReachesRequests(h: History, h': History, q: nat)
    requires StartOf(h, h') && PhaseOf(Run(h), q) == Arrived
    ensures var s, s' := Run(h), Run(h');
            Fresh(s', |s.registries| - 1, |s.resolvers| - 1, |s.sends|, q)
  {
    if h == h' {
    } else {
      ReloadReachesRequests(h, h'.before, q);
      var s := Run(h);
      FreshStep(Run(h'.before), h'.event, |s.registries| - 1, |s.resolvers| - 1, |s.sends|, q);
    }
  }

  // ----- The proxy handler in this system -----

  /** The sends for one target, as this system records them. */
  function Recorded(q: nat, target: Target, source: nat, sent: seq<Sent<Outgoing<Body>>>): (r: seq<Sending>)
    ensures |r| == |sent|
  {
    if sent == [] then []
    else
      var request := sent[|sent| - 1].request;
      Recorded(q, target, source, sent[..|sent| - 1]) + [Sending(q, target, request.backend, request.body, source)]
  }

  /** Whatever the handler sends for the target whose turn it is, a request in that pool can send. */
  lemma HandlerSendIsStep(h: History, q: nat, targets: seq<Target>, i: nat, pool: seq<Provider>, source: nat,
                          headers: Headers, base: Body, sent: Sent<Outgoing<Body>>) returns (h': History)
    requires PhaseOf(Run(h), q) == InPool(targets, i, pool, source) && i < |targets|
    requires var body := RewriteModel(base, targets[i].targetModel);
             body.Some? && PoolFailover.FromPool(pool, headers, body.value, sent)
    ensures var s := Run(h);
            Run(h') == s.(sends := s.sends + [Sending(q, targets[i], sent.request.backend, sent.request.body, source)])
  {
    var body := RewriteModel(base, targets[i].targetModel).value;
    var choice :| 0 <= choice < |pool| && From(pool[choice], headers, body, sent);
    h' := Then(h, Send(q, choice, base));
  }

  lemma {:induction false} HandlerSendsAreSteps(h: History, q: nat, targets: seq<Target>, i: nat, pool: seq<Provider>,
                                                source: nat, headers: Headers, base: Body,
                                                sent: seq<Sent<Outgoing<Body>>>) returns (h': History)
    requires PhaseOf(Run(h), q) == InPool(targets, i, pool, source) && i < |targets|
    requires var body := RewriteModel(base, targets[i].targetModel);
             body.Some? && forall k :: 0 <= k < |sent| ==> PoolFailover.FromPool(pool, headers, body.value, sent[k])
    ensures var s := Run(h); Run(h') == s.(sends := s.sends + Recorded(q, targets[i], source, sent))
  {
    hide Step, RewriteModel, PoolFailover.FromPool;
    if sent == [] {
      h' := h;
      assert Run(h).sends + [] == Run(h).sends;
    } else {
      var n := |sent| - 1;
      var h1 := HandlerSendsAreSteps(h, q, targets, i, pool, source, headers, base, sent[..n]);
      h' := HandlerSendIsStep(h1, q, targets, i, pool, source, headers, base, sent[n]);
    }
  }

  /** `x` is the handler's send `sent` for target `i`, made from the registry that was current at that target's turn. */
  predicate IsSend(s: System, x: Sending, sent: Sent<Outgoing<Body>>, q: nat, targets: seq<Target>,
                   registry: nat -> Snapshot, i: nat)
  {
    && i < |targets| && x.request == q && x.target == targets[i]
    && x.backend == sent.request.backend && x.body == sent.request.body
    && x.source < |s.registries| && s.registries[x.source] == registry(i)
  }

  ghost predicate IsSendForSome(s: System, x: Sending, sent: Sent<Outgoing<Body>>, q: nat, targets: seq<Target>,
                                registry: nat -> Snapshot)
  {
    exists i: nat :: IsSend(s, x, sent, q, targets, registry, i)
  }

  /** The sends of `s'` after those of `s` are the handler's, one for one and in the same order. */
  ghost predicate Mirrors(s: System, s': System, sent: seq<Sent<Outgoing<Body>>>, q: nat, targets: seq<Target>,
                          registry: nat -> Snapshot)
  {
    && Grown(s, s') && s.sends <= s'.sends && |s'.sends| == |s.sends| + |sent|
    && forall j :: 0 <= j < |sent| ==> IsSendForSome(s', s'.sends[|s.sends| + j], sent[j], q, targets, registry)
  }

  lemma {:induction false} RecordedAt(q: nat, target: Target, source: nat, sent: seq<Sent<Outgoing<Body>>>, k: nat)
    requires k < |sent|
    ensures Recorded(q, target, source, sent)[k]
         == Sending(q, target, sent[k].request.backend, sent[k].request.body, source)
  {
    if k == |sent| - 1 {
    } else {
      RecordedAt(q, target, source, sent[..|sent| - 1], k);
    }
  }

  lemma MirrorsNothing(s: System, q: nat, targets: seq<Target>, registry: nat -> Snapshot)
    ensures Mirrors(s, s, [], q, targets, registry)
  {
  }

  lemma MirrorsMore(s: System, s1: System, s2: System, sent: seq<Sent<Outgoing<Body>>>, more: seq<Sent<Outgoing<Body>>>,
                    q: nat, targets: seq<Target>, registry: nat -> Snapshot, i: nat)
    requires Mirrors(s, s1, sent, q, targets, registry) && i < |targets|
    requires s2.registries == s1.registries + [registry(i)] && s2.resolvers == s1.resolvers
    requires s2.sends == s1.sends + Recorded(q, targets[i], |s1.registries|, more)
    ensures Mirrors(s, s2, sent + more, q, targets, registry)
  {
    var all := sent + more;
    forall j | 0 <= j < |all| ensures IsSendForSome(s2, s2.sends[|s.sends| + j], all[j], q, targets, registry) {
      if j < |sent| {
        assert IsSendForSome(s1, s1.sends[|s.sends| + j], sent[j], q, targets, registry);
        var k: nat :| IsSend(s1, s1.sends[|s.sends| + j], sent[j], q, targets, registry, k);
        assert IsSend(s2, s2.sends[|s.sends| + j], all[j], q, targets, registry, k);
      } else {
        RecordedAt(q, targets[i], |s1.registries|, more, j - |sent|);
        assert IsSend(s2, s2.sends[|s.sends| + j], all[j], q, targets, registry, i);
      }
    }
  }

  /** The turn of one target: its registry is stored, its pool loaded, everything sent, and the next target awaited. */
  lemma TurnIsHistory(h: History, q: nat, targets: seq<Target>, i: nat, current: Snapshot,
                      headers: Headers, base: Body, sent: seq<Sent<Outgoing<Body>>>) returns (h': History)
    requires PhaseOf(Run(h), q) == Routed(targets, i) && i < |targets|
    requires var t := targets[i];
             var body := RewriteModel(base, t.targetModel);
             && body.Some?
             && forall k :: 0 <= k < |sent| ==>
                  PoolFailover.FromPool(FindBackends(current, t.providerId, t.targetModel), headers, body.value,
                                        sent[k])
    ensures var s, s' := Run(h), Run(h');
            && PhaseOf(s', q) == Routed(targets, i + 1)
            && s'.registries == s.registries + [current] && s'.resolvers == s.resolvers
            && s'.sends == s.sends + Recorded(q, targets[i], |s.registries|, sent)
  {
    hide PoolFailover.FromPool, RewriteModel, FindBackends, Recorded;
    var pool := FindBackends(current, targets[i].providerId, targets[i].targetModel);
    var stored := Then(h, StoreRegistry(current));
    var loaded := Then(stored, LoadPool(q));
    assert Run(stored).registries[|Run(h).registries|] == current;
    assert PhaseOf(Run(loaded), q) == InPool(targets, i, pool, |Run(h).registries|);
    var done := HandlerSendsAreSteps(loaded, q, targets, i, pool, |Run(h).registries|, headers, base, sent);
    h' := Then(done, NextTarget(q));
  }

  /** A whole run of the proxy handler is a history of this system: from the moment a request has its targets, some
      history in which the registry current at each target's turn is the one the handler used sends exactly what the
      handler sent, in the same order. */
  lemma {:induction false} HandlerRunIsHistory(h: History, q: nat, targets: seq<Target>, registry: nat -> Snapshot,
                                               retry: RetryConfig, headers: Headers, base: Body,
                                               course: ProxyHandler.Course) returns (h': History)
    requires PhaseOf(Run(h), q) == Routed(targets, 0) && ProxyHandler.Count(course) <= |targets|
    requires ProxyHandler.CourseSends(registry, targets, retry, headers, base, course)
    ensures PhaseOf(Run(h'), q) == Routed(targets, ProxyHandler.Count(course))
    ensures Mirrors(Run(h), Run(h'), ProxyHandler.SendsOf(course), q, targets, registry)
  {
    hide Run, RewriteModel, FindBackends, PoolFailover.FromPool, PoolFailover.PoolBudget, PoolFailover.SentBy, Mirrors;
    if course.NoTarget? {
      h' := h;
      MirrorsNothing(Run(h), q, targets, registry);
    } else {
      var i, sent := ProxyHandler.Count(course.before), PoolFailover.SentBy(course.tries);
      var h1 := HandlerRunIsHistory(h, q, targets, registry, retry, headers, base, course.before);
      h' := TurnIsHistory(h1, q, targets, i, registry(i), headers, base, sent);
      MirrorsMore(Run(h), Run(h1), Run(h'), ProxyHandler.SendsOf(course.before), sent, q, targets, registry, i);
    }
  }
}
