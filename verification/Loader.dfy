/** Loading providers and models from the database into a registry and a resolver. */
module Loader {
  import opened Wrappers
  import opened AuthHeaders
  import opened KeyFailover
  import opened Registry
  import opened ModelResolver

  /** `auth` is None for a row whose auth columns cannot be parsed. */
  datatype ProviderRow = ProviderRow(id: nat, name: string, auth: Option<AuthType>, isActive: bool)
  datatype KeyRow = KeyRow(id: KeyId, providerId: nat, secret: Option<string>, isActive: bool)
  datatype ModelRow = ModelRow(providerId: nat, targetModel: string, isActive: bool)

  /** A row of the join of model targets, models, target models and providers, all of them active. */
  datatype AliasRow = AliasRow(publicName: string, providerName: string, targetModel: string, priority: int)

  /** The tables, with their rows in any order. */
  datatype Tables = Tables(
    providers: seq<ProviderRow>, keys: seq<KeyRow>, models: seq<ModelRow>, aliases: seq<AliasRow>)

  /** `id` is the primary key of the providers table. */
  predicate PrimaryKey(rows: seq<ProviderRow>) {
    forall i, j :: 0 <= i < j < |rows| ==> rows[i].id != rows[j].id
  }

  // ----- The relational query -----

  ghost predicate IsActiveProvider(t: Tables, id: nat, name: string) {
    exists i :: 0 <= i < |t.providers|
             && t.providers[i].isActive && t.providers[i].id == id && t.providers[i].name == name
  }

  ghost predicate UsesAuth(t: Tables, id: nat, auth: AuthType) {
    exists i :: 0 <= i < |t.providers|
             && t.providers[i].isActive && t.providers[i].id == id && t.providers[i].auth == Some(auth)
  }

  ghost predicate HasActiveKey(t: Tables, id: nat) {
    exists i :: 0 <= i < |t.keys| && t.keys[i].isActive && t.keys[i].providerId == id
  }

  ghost predicate HasActiveModel(t: Tables, id: nat, model: string) {
    exists i :: 0 <= i < |t.models|
             && t.models[i].isActive && t.models[i].providerId == id && t.models[i].targetModel == model
  }

  /** The backend `id` may serve `model` under the provider name `name`. */
  ghost predicate Serves(t: Tables, id: nat, name: string, model: string) {
    IsActiveProvider(t, id, name) && HasActiveKey(t, id) && HasActiveModel(t, id, model)
  }

  /** A provider's active keys, in row order. */
  function KeysOf(rows: seq<KeyRow>, id: nat): seq<ProviderKey> {
    if rows == [] then []
    else
      var row := rows[|rows| - 1];
      KeysOf(rows[..|rows| - 1], id)
      + if row.isActive && row.providerId == id then [ProviderKey(row.id, row.secret)] else []
  }

  /** These are the active key rows of the provider, one for one and in row order. */
  lemma {:induction false} KeysInOrder(rows: seq<KeyRow>, id: nat) returns (at: seq<nat>)
    ensures |at| == |KeysOf(rows, id)|
    ensures forall k :: 0 <= k < |at| ==>
              && at[k] < |rows| && rows[at[k]].isActive && rows[at[k]].providerId == id
              && KeysOf(rows, id)[k].id == rows[at[k]].id && KeysOf(rows, id)[k].secret == rows[at[k]].secret
    ensures forall k, l :: 0 <= k < l < |at| ==> at[k] < at[l]
    ensures forall i :: 0 <= i < |rows| && rows[i].isActive && rows[i].providerId == id ==> i in at
  {
    if rows == [] {
      at := [];
    } else {
      var n := |rows| - 1;
      var before := KeysInOrder(rows[..n], id);
      at := before + if rows[n].isActive && rows[n].providerId == id then [n] else [];
      assert forall k :: 0 <= k < n ==> rows[..n][k] == rows[k];
      forall i | 0 <= i < |rows| && rows[i].isActive && rows[i].providerId == id ensures i in at {
        if i < n { assert i in before; } else { assert at[|before|] == n; }
      }
    }
  }

  lemma CountLast<T>(s: seq<T>, x: T)
    requires s != []
    ensures var n := |s| - 1; multiset(s)[x] == multiset(s[..n])[x] + if s[n] == x then 1 else 0
  {
    var n := |s| - 1;
    assert s == s[..n] + [s[n]];
  }

  lemma CountPlus<T>(s: seq<T>, more: seq<T>, x: T)
    ensures multiset(s + more)[x] == multiset(s)[x] + multiset(more)[x]
  {
  }

  lemma {:induction false} KeysCount(rows: seq<KeyRow>, providerId: nat, id: KeyId, secret: Option<string>)
    ensures multiset(KeysOf(rows, providerId))[ProviderKey(id, secret)]
         == multiset(rows)[KeyRow(id, providerId, secret, true)]
  {
    if rows == [] {
    } else {
      var n := |rows| - 1;
      var more := if rows[n].isActive && rows[n].providerId == providerId then [ProviderKey(rows[n].id, rows[n].secret)]
                  else [];
      KeysCount(rows[..n], providerId, id, secret);
      CountLast(rows, KeyRow(id, providerId, secret, true));
      CountPlus(KeysOf(rows[..n], providerId), more, ProviderKey(id, secret));
    }
  }

  function ModelsOf(rows: seq<ModelRow>, id: nat): set<string> {
    set i | 0 <= i < |rows| && rows[i].isActive && rows[i].providerId == id :: rows[i].targetModel
  }

  lemma {:induction false} HasKeyIff(t: Tables, rows: seq<KeyRow>, id: nat)
    requires rows <= t.keys
    ensures KeysOf(rows, id) != [] <==> exists i :: 0 <= i < |rows| && rows[i].isActive && rows[i].providerId == id
  {
    if rows == [] {
    } else {
      HasKeyIff(t, rows[..|rows| - 1], id);
    }
  }

  // ----- Loading -----

  datatype Build = Build(name: string, auth: AuthType, keys: seq<ProviderKey>, models: set<string>)

  /** The build of every active provider. */
  ghost predicate AreBuilds(builds: map<nat, Build>, t: Tables) {
    && (forall id :: id in builds <==> exists name :: IsActiveProvider(t, id, name))
    && (forall id :: id in builds ==>
          && IsActiveProvider(t, id, builds[id].name) && UsesAuth(t, id, builds[id].auth)
          && builds[id].keys == KeysOf(t.keys, id) && builds[id].models == ModelsOf(t.models, id))
  }

  method BuildProviders(t: Tables) returns (builds: map<nat, Build>, ok: bool)
    requires PrimaryKey(t.providers)
    ensures ok <==> forall i :: 0 <= i < |t.providers| && t.providers[i].isActive ==> t.providers[i].auth.Some?
    ensures ok ==>
              && (forall id :: id in builds <==> exists name :: IsActiveProvider(t, id, name))
              && (forall id :: id in builds ==>
                    && IsActiveProvider(t, id, builds[id].name) && UsesAuth(t, id, builds[id].auth)
                    && builds[id].keys == [] && builds[id].models == {})
  {
    builds := map[];
    for n := 0 to |t.providers|
      invariant forall i :: 0 <= i < n && t.providers[i].isActive ==> t.providers[i].auth.Some?
      invariant forall i :: 0 <= i < n && t.providers[i].isActive ==>
                  t.providers[i].id in builds
                  && builds[t.providers[i].id] == Build(t.providers[i].name, t.providers[i].auth.value, [], {})
      invariant forall id :: id in builds ==>
                  builds[id].keys == [] && builds[id].models == {}
                  && exists i :: 0 <= i < n && t.providers[i].isActive && t.providers[i].id == id
                                 && t.providers[i].name == builds[id].name
                                 && t.providers[i].auth == Some(builds[id].auth)
    {
      var row := t.providers[n];
      if row.isActive {
        if row.auth.None? {
          return builds, false;
        }
        builds := builds[row.id := Build(row.name, row.auth.value, [], {})];
      }
    }
    forall id | id in builds ensures IsActiveProvider(t, id, builds[id].name) && UsesAuth(t, id, builds[id].auth) {}
    return builds, true;
  }

  method AddKeys(builds0: map<nat, Build>, rows: seq<KeyRow>) returns (builds: map<nat, Build>)
    requires forall id :: id in builds0 ==> builds0[id].keys == []
    ensures builds.Keys == builds0.Keys
    ensures forall id :: id in builds ==> builds[id] == builds0[id].(keys := KeysOf(rows, id))
  {
    builds := builds0;
    for n := 0 to |rows|
      invariant builds.Keys == builds0.Keys
      invariant forall id :: id in builds ==> builds[id] == builds0[id].(keys := KeysOf(rows[..n], id))
    {
      assert rows[..n + 1][..n] == rows[..n];
      var row := rows[n];
      if row.isActive && row.providerId in builds {
        var b := builds[row.providerId];
        builds := builds[row.providerId := b.(keys := b.keys + [ProviderKey(row.id, row.secret)])];
      }
    }
    assert rows[..|rows|] == rows;
  }

  lemma ModelsOfNext(rows: seq<ModelRow>, n: nat, id: nat)
    requires n < |rows|
    ensures ModelsOf(rows[..n + 1], id)
         == ModelsOf(rows[..n], id)
            + if rows[n].isActive && rows[n].providerId == id then {rows[n].targetModel} else {}
  {
    var next, now := rows[..n + 1], rows[..n];
    forall m | m in ModelsOf(now, id) ensures m in ModelsOf(next, id) {
      var i :| 0 <= i < n && now[i].isActive && now[i].providerId == id && now[i].targetModel == m;
      assert next[i] == now[i];
    }
    forall m | m in ModelsOf(next, id)
      ensures m in ModelsOf(now, id) || (rows[n].isActive && rows[n].providerId == id && m == rows[n].targetModel)
    {
      var i :| 0 <= i < n + 1 && next[i].isActive && next[i].providerId == id && next[i].targetModel == m;
      if i < n { assert now[i] == next[i]; }
    }
    assert next[n] == rows[n];
  }

  method AddModels(builds0: map<nat, Build>, rows: seq<ModelRow>) returns (builds: map<nat, Build>)
    requires forall id :: id in builds0 ==> builds0[id].models == {}
    ensures builds.Keys == builds0.Keys
    ensures forall id :: id in builds ==> builds[id] == builds0[id].(models := ModelsOf(rows, id))
  {
    builds := builds0;
    for n := 0 to |rows|
      invariant builds.Keys == builds0.Keys
      invariant forall id :: id in builds ==> builds[id] == builds0[id].(models := ModelsOf(rows[..n], id))
    {
      var row := rows[n];
      forall id | id in builds
        ensures ModelsOf(rows[..n + 1], id)
             == ModelsOf(rows[..n], id) + if row.isActive && row.providerId == id then {row.targetModel} else {}
      {
        ModelsOfNext(rows, n, id);
      }
      if row.isActive && row.providerId in builds {
        var b := builds[row.providerId];
        builds := builds[row.providerId := b.(models := b.models + {row.targetModel})];
      }
    }
    assert rows[..|rows|] == rows;
  }

  /** A hash set collected into a vector: its elements once each, in an order nobody chose. */
  method Collect(s: set<string>) returns (items: seq<string>)
    ensures Distinct(items) && forall x :: x in items <==> x in s
  {
    items := [];
    var rest := s;
    while rest != {}
      invariant rest <= s && Distinct(items)
      invariant forall x :: x in items <==> x in s - rest
      decreases rest
    {
      var x :| x in rest;
      assert x !in items;
      items := items + [x];
      rest := rest - {x};
    }
  }

  predicate Published(b: Build) {
    b.models != {} && b.keys != []
  }

  /** Backend `id` is registered if it is published and among those done, with its build's contents. */
  ghost predicate IndexedBackend(r: Snapshot, builds: map<nat, Build>, done: set<nat>, id: nat) {
    && (id in r.backends <==> id in done && id in builds && Published(builds[id]))
    && (id in r.backends ==>
          var p, b := r.backends[id], builds[id];
          p.backendId == id && p.providerId == b.name && p.auth == b.auth && p.keys == b.keys
          && forall m :: m in p.models <==> m in b.models)
  }

  /** The pool of a provider and model lists the registered backends of that name and model, once each. */
  ghost predicate IndexedPool(r: Snapshot, p: string, m: string) {
    && Distinct(PoolOf(r.pools, p, m))
    && forall id :: id in PoolOf(r.pools, p, m) <==>
         id in r.backends && r.backends[id].providerId == p && m in r.backends[id].models
  }

  ghost predicate Indexes(r: Snapshot, builds: map<nat, Build>, done: set<nat>) {
    (forall id :: IndexedBackend(r, builds, done, id)) && (forall p, m :: IndexedPool(r, p, m))
  }

  lemma PoolNext(r: Snapshot, r': Snapshot, p: Provider, q: string, m: string)
    requires IndexedPool(r, q, m) && p.backendId !in r.backends && Distinct(p.models)
    requires r' == Snapshot(r.backends[p.backendId := p], WithModels(r.pools, p.providerId, p.backendId, p.models))
    ensures IndexedPool(r', q, m)
  {
    WithModelsPools(r.pools, p.providerId, p.backendId, p.models, q, m);
    assert p.backendId !in PoolOf(r.pools, q, m);
  }

  lemma IndexesNext(r: Snapshot, r': Snapshot, builds: map<nat, Build>, done: set<nat>, p: Provider)
    requires Indexes(r, builds, done) && p.backendId in builds && p.backendId !in done
    requires var b := builds[p.backendId];
             Published(b) && p.providerId == b.name && p.auth == b.auth && p.keys == b.keys
             && forall m :: m in p.models <==> m in b.models
    requires Distinct(p.models)
    requires r' == Snapshot(r.backends[p.backendId := p], WithModels(r.pools, p.providerId, p.backendId, p.models))
    ensures Indexes(r', builds, done + {p.backendId})
  {
    assert IndexedBackend(r, builds, done, p.backendId);
    forall id ensures IndexedBackend(r', builds, done + {p.backendId}, id) {
      assert IndexedBackend(r, builds, done, id);
    }
    forall q, m ensures IndexedPool(r', q, m) {
      assert IndexedPool(r, q, m);
      PoolNext(r, r', p, q, m);
    }
  }

  lemma IndexesSkip(r: Snapshot, builds: map<nat, Build>, done: set<nat>, id: nat)
    requires Indexes(r, builds, done) && id in builds && !Published(builds[id])
    ensures Indexes(r, builds, done + {id})
  {
    forall x ensures IndexedBackend(r, builds, done + {id}, x) {
      assert IndexedBackend(r, builds, done, x);
    }
  }

  /** Builds become backends in the arbitrary order of the hash map. */
  method RegisterAll(builds: map<nat, Build>) returns (registry: ProxyProviderRegistry)
    ensures fresh(registry) && Indexes(registry.View(), builds, builds.Keys)
  {
    registry := new ProxyProviderRegistry();
    var rest := builds.Keys;
    while rest != {}
      invariant rest <= builds.Keys && fresh(registry)
      invariant Indexes(registry.View(), builds, builds.Keys - rest)
      decreases rest
    {
      var id :| id in rest;
      var build := builds[id];
      ghost var done, before := builds.Keys - rest, registry.View();
      assert builds.Keys - (rest - {id}) == done + {id};
      rest := rest - {id};
      if build.models == {} || build.keys == [] {
        IndexesSkip(before, builds, done, id);
        continue;
      }
      var models := Collect(build.models);
      var p := Provider(id, build.name, build.auth, build.keys, models);
      registry.Register(p);
      IndexesNext(before, registry.View(), builds, done, p);
    }
    assert builds.Keys - rest == builds.Keys;
  }

  /** The targets of a public model, in row order. */
  function AliasTargets(rows: seq<AliasRow>, publicModel: string): seq<Target> {
    if rows == [] then []
    else
      var row := rows[|rows| - 1];
      AliasTargets(rows[..|rows| - 1], publicModel)
      + if row.publicName == publicModel then [Target(row.providerName, row.targetModel, row.priority)] else []
  }

  /** These are the alias rows of the model, one for one and in row order. */
  lemma {:induction false} AliasesInOrder(rows: seq<AliasRow>, publicModel: string) returns (at: seq<nat>)
    ensures |at| == |AliasTargets(rows, publicModel)|
    ensures forall k :: 0 <= k < |at| ==>
              var target := AliasTargets(rows, publicModel)[k];
              && at[k] < |rows| && rows[at[k]].publicName == publicModel
              && target.providerId == rows[at[k]].providerName && target.targetModel == rows[at[k]].targetModel
              && target.priority == rows[at[k]].priority
    ensures forall k, l :: 0 <= k < l < |at| ==> at[k] < at[l]
    ensures forall i :: 0 <= i < |rows| && rows[i].publicName == publicModel ==> i in at
  {
    if rows == [] {
      at := [];
    } else {
      var n := |rows| - 1;
      var before := AliasesInOrder(rows[..n], publicModel);
      at := before + if rows[n].publicName == publicModel then [n] else [];
      assert forall k :: 0 <= k < n ==> rows[..n][k] == rows[k];
      forall i | 0 <= i < |rows| && rows[i].publicName == publicModel ensures i in at {
        if i < n { assert i in before; } else { assert at[|before|] == n; }
      }
    }
  }

  /** A target occurs as often as there are rows that say so. */
  lemma {:induction false} AliasesCount(rows: seq<AliasRow>, publicModel: string, providerId: string,
                                        targetModel: string, priority: int)
    ensures multiset(AliasTargets(rows, publicModel))[Target(providerId, targetModel, priority)]
         == multiset(rows)[AliasRow(publicModel, providerId, targetModel, priority)]
  {
    if rows == [] {
    } else {
      var n := |rows| - 1;
      var row := rows[n];
      var more := if row.publicName == publicModel then [Target(row.providerName, row.targetModel, row.priority)]
                  else [];
      AliasesCount(rows[..n], publicModel, providerId, targetModel, priority);
      CountLast(rows, AliasRow(publicModel, providerId, targetModel, priority));
      CountPlus(AliasTargets(rows[..n], publicModel), more, Target(providerId, targetModel, priority));
    }
  }

  method LoadResolver(rows: seq<AliasRow>) returns (resolver: ModelResolver)
    ensures fresh(resolver)
    ensures forall m :: TargetsOf(resolver.index, m) == AliasTargets(rows, m)
  {
    resolver := new ModelResolver();
    for n := 0 to |rows|
      invariant fresh(resolver) && forall m :: TargetsOf(resolver.index, m) == AliasTargets(rows[..n], m)
    {
      assert rows[..n + 1][..n] == rows[..n];
      resolver.AddTarget(rows[n].publicName, Target(rows[n].providerName, rows[n].targetModel, rows[n].priority));
    }
    assert rows[..|rows|] == rows;
  }

  /** `find_backends(p, m)` lists, without duplicates, exactly the backends that the query selects. */
  ghost predicate AgreesOn(r: Snapshot, t: Tables, p: string, m: string) {
    var found := FindBackends(r, p, m);
    && (forall i, j :: 0 <= i < j < |found| ==> found[i].backendId != found[j].backendId)
    && (forall i :: 0 <= i < |found| ==>
          && Serves(t, found[i].backendId, p, m)
          && found[i].providerId == p && m in found[i].models
          && found[i].keys == KeysOf(t.keys, found[i].backendId) && UsesAuth(t, found[i].backendId, found[i].auth))
    && (forall id :: Serves(t, id, p, m) ==> exists i :: 0 <= i < |found| && found[i].backendId == id)
  }

  ghost predicate AgreesWithQuery(r: Snapshot, t: Tables) {
    forall p, m :: AgreesOn(r, t, p, m)
  }

  /** A backend is in a pool exactly if the query selects it. */
  lemma IndexAgrees(r: Snapshot, builds: map<nat, Build>, t: Tables, p: string, m: string, id: nat)
    requires PrimaryKey(t.providers) && AreBuilds(builds, t) && Indexes(r, builds, builds.Keys)
    ensures id in PoolOf(r.pools, p, m) <==> Serves(t, id, p, m)
  {
    assert IndexedBackend(r, builds, builds.Keys, id) && IndexedPool(r, p, m);
    HasKeyIff(t, t.keys, id);
    if IsActiveProvider(t, id, p) {
      assert id in builds && builds[id].name == p;
    }
    assert HasActiveModel(t, id, m) <==> m in ModelsOf(t.models, id);
  }

  /** The lookup lists the pool's backends one for one. */
  lemma LookupIsPool(r: Snapshot, builds: map<nat, Build>, p: string, m: string)
    requires Indexes(r, builds, builds.Keys)
    ensures var ids, found := PoolOf(r.pools, p, m), FindBackends(r, p, m);
            && |found| == |ids| && Distinct(ids)
            && forall i :: 0 <= i < |ids| ==>
                 && ids[i] in builds && found[i].backendId == ids[i]
                 && found[i].providerId == p && m in found[i].models
                 && found[i].keys == builds[ids[i]].keys && found[i].auth == builds[ids[i]].auth
  {
    var ids := PoolOf(r.pools, p, m);
    assert IndexedPool(r, p, m);
    forall i | 0 <= i < |ids| ensures ids[i] in r.backends { assert ids[i] in PoolOf(r.pools, p, m); }
    KnownAll(ids, r.backends);
    forall i | 0 <= i < |ids|
      ensures ids[i] in builds && r.backends[ids[i]].backendId == ids[i] && r.backends[ids[i]].providerId == p
              && m in r.backends[ids[i]].models && r.backends[ids[i]].keys == builds[ids[i]].keys
              && r.backends[ids[i]].auth == builds[ids[i]].auth
    {
      assert ids[i] in PoolOf(r.pools, p, m) && IndexedBackend(r, builds, builds.Keys, ids[i]);
    }
  }

  lemma LookupAgrees(r: Snapshot, builds: map<nat, Build>, t: Tables, p: string, m: string)
    requires PrimaryKey(t.providers) && AreBuilds(builds, t) && Indexes(r, builds, builds.Keys)
    ensures AgreesOn(r, t, p, m)
  {
    var ids, found := PoolOf(r.pools, p, m), FindBackends(r, p, m);
    LookupIsPool(r, builds, p, m);
    forall i | 0 <= i < |found| ensures Serves(t, found[i].backendId, p, m) {
      assert ids[i] in ids;
      IndexAgrees(r, builds, t, p, m, ids[i]);
    }
    forall id | Serves(t, id, p, m) ensures exists i :: 0 <= i < |found| && found[i].backendId == id {
      IndexAgrees(r, builds, t, p, m, id);
      var i :| 0 <= i < |ids| && ids[i] == id;
      assert found[i].backendId == id;
    }
  }

  lemma RegistryAgrees(r: Snapshot, builds: map<nat, Build>, t: Tables)
    requires PrimaryKey(t.providers) && AreBuilds(builds, t) && Indexes(r, builds, builds.Keys)
    ensures AgreesWithQuery(r, t)
  {
    hide AgreesOn, AreBuilds, Indexes;
    forall p, m ensures AgreesOn(r, t, p, m) {
      LookupAgrees(r, builds, t, p, m);
    }
  }

  /** The builds, filled from all three tables in turn. */
  method BuildAll(t: Tables) returns (builds: map<nat, Build>, ok: bool)
    requires PrimaryKey(t.providers)
    ensures ok <==> forall i :: 0 <= i < |t.providers| && t.providers[i].isActive ==> t.providers[i].auth.Some?
    ensures ok ==> AreBuilds(builds, t)
  {
    hide KeysOf, ModelsOf, IsActiveProvider, UsesAuth;
    builds, ok := BuildProviders(t);
    if ok {
      builds := AddKeys(builds, t.keys);
      builds := AddModels(builds, t.models);
    }
  }

  datatype Outcome = EnvFallback | InvalidAuth | Loaded

  /** load_providers_and_models: without an active provider the environment decides, and one active provider with
      an invalid auth type fails the whole load; otherwise the registry answers as the query would. */
  method Load(t: Tables)
    returns (outcome: Outcome, registry: ProxyProviderRegistry?, resolver: ModelResolver?)
    requires PrimaryKey(t.providers)
    ensures outcome == EnvFallback <==> forall i :: 0 <= i < |t.providers| ==> !t.providers[i].isActive
    ensures outcome == InvalidAuth <==>
              exists i :: 0 <= i < |t.providers| && t.providers[i].isActive && t.providers[i].auth.None?
    ensures outcome == Loaded ==>
              && registry != null && fresh(registry) && AgreesWithQuery(registry.View(), t)
              && resolver != null && fresh(resolver)
              && (forall m :: TargetsOf(resolver.index, m) == AliasTargets(t.aliases, m))
              && forall m, p, model, priority ::
                   multiset(TargetsOf(resolver.index, m))[Target(p, model, priority)]
                   == multiset(t.aliases)[AliasRow(m, p, model, priority)]
  {
    hide AgreesOn, AreBuilds, Indexes, AliasTargets, TargetsOf;
    registry, resolver := null, null;
    if forall i :: 0 <= i < |t.providers| ==> !t.providers[i].isActive {
      return EnvFallback, null, null;
    }
    var builds, ok := BuildAll(t);
    if !ok {
      return InvalidAuth, null, null;
    }
    resolver := LoadResolver(t.aliases);
    forall m, p, model, priority
      ensures multiset(TargetsOf(resolver.index, m))[Target(p, model, priority)]
           == multiset(t.aliases)[AliasRow(m, p, model, priority)]
    {
      AliasesCount(t.aliases, m, p, model, priority);
    }
    registry := RegisterAll(builds);
    RegistryAgrees(registry.View(), builds, t);
    outcome := Loaded;
  }
}
