/** The provider registry: backends by id, and the pool of backend ids of each provider and model. */
module Registry {
  import opened KeyFailover

  type Pools = map<(string, string), seq<nat>>

  /** The contents of a registry, as published to requests. */
  datatype Snapshot = Snapshot(backends: map<nat, Provider>, pools: Pools)

  function PoolOf(pools: Pools, provider: string, model: string): seq<nat> {
    if (provider, model) in pools then pools[(provider, model)] else []
  }

  function Known(ids: seq<nat>, backends: map<nat, Provider>): seq<Provider> {
    if ids == [] then []
    else (if ids[0] in backends then [backends[ids[0]]] else []) + Known(ids[1..], backends)
  }

  /** The backends for a provider and model. */
  function FindBackends(r: Snapshot, provider: string, model: string): seq<Provider> {
    Known(PoolOf(r.pools, provider, model), r.backends)
  }

  /** The pools after a backend has been pushed to the pool of each of its models. */
  function WithModels(pools: Pools, provider: string, id: nat, models: seq<string>): Pools {
    if models == [] then pools
    else
      var before := WithModels(pools, provider, id, models[..|models| - 1]);
      var model := models[|models| - 1];
      before[(provider, model) := PoolOf(before, provider, model) + [id]]
  }

  predicate Distinct<T(==)>(s: seq<T>) {
    forall i, j :: 0 <= i < j < |s| ==> s[i] != s[j]
  }

  /** A backend joins exactly the pools of its own provider and models, once each. */
  lemma {:induction false} WithModelsPools(pools: Pools, provider: string, id: nat, models: seq<string>,
                                           p: string, m: string)
    requires Distinct(models)
    ensures PoolOf(WithModels(pools, provider, id, models), p, m)
         == PoolOf(pools, p, m) + if p == provider && m in models then [id] else []
  {
    if models == [] {
    } else {
      WithModelsPools(pools, provider, id, models[..|models| - 1], p, m);
      assert models == models[..|models| - 1] + [models[|models| - 1]];
      assert PoolOf(pools, p, m) + [] == PoolOf(pools, p, m);
    }
  }

  class ProxyProviderRegistry {
    var backends: map<nat, Provider>
    var pools: Pools

    function View(): Snapshot
      reads this
    {
      Snapshot(backends, pools)
    }

    constructor ()
      ensures View() == Snapshot(map[], map[])
    {
      backends, pools := map[], map[];
    }

    method Register(p: Provider)
      modifies this
      ensures backends == old(backends)[p.backendId := p]
      ensures pools == WithModels(old(pools), p.providerId, p.backendId, p.models)
    {
      for n := 0 to |p.models|
        invariant backends == old(backends)
        invariant pools == WithModels(old(pools), p.providerId, p.backendId, p.models[..n])
      {
        assert p.models[..n + 1][..n] == p.models[..n];
        var key := (p.providerId, p.models[n]);
        pools := pools[key := PoolOf(pools, p.providerId, p.models[n]) + [p.backendId]];
      }
      assert p.models[..|p.models|] == p.models;
      backends := backends[p.backendId := p];
    }
  }

  /** When every id of a pool is a known backend, the lookup lists those backends in order. */
  lemma {:induction false} KnownAll(ids: seq<nat>, backends: map<nat, Provider>)
    requires forall i :: 0 <= i < |ids| ==> ids[i] in backends
    ensures |Known(ids, backends)| == |ids|
    ensures forall i :: 0 <= i < |ids| ==> Known(ids, backends)[i] == backends[ids[i]]
  {
    if ids == [] {
    } else {
      KnownAll(ids[1..], backends);
    }
  }
}
