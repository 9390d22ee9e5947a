/**
 Building the pool: entries grouped by model name, a client for each entry, a router where a name has more
 than one; everything or nothing, whatever order the hash map is iterated in.
 */
module ServicePool {
  import opened Wrappers
  import Guardrails

  // `settings` stands for the key, the address and the timeout a client is built from.
  datatype ModelEntry = ModelEntry(name: string, providerModel: string, settings: string)

  datatype Strategy = Unweighted | WeightedRandom(weights: seq<nat>)

  datatype PoolError =
    | GuardrailError(cause: Guardrails.BuildError)
    | StrategyError(text: string)
    | ClientError(entry: ModelEntry, text: string)
    | RouterError

  // A bare service, or a router over deployments with the models they serve.
  datatype Base<C> = Single(client: C) | Routed(deployments: seq<C>, strategy: Strategy, models: seq<string>)

  datatype Pool<C> = Pool(services: map<string, Base<C>>, clients: map<string, C>, defaultClient: Option<C>,
                          guardrails: seq<Guardrails.Guardrail>)

  /// Groups

  function Names(models: seq<ModelEntry>): set<string> {
    set e | e in models :: e.name
  }

  // The entries with a name, in configured order.
  function Group(models: seq<ModelEntry>, name: string): seq<ModelEntry> {
    if models == [] then [] else
    var last := models[|models| - 1];
    Group(models[..|models| - 1], name) + if last.name == name then [last] else []
  }

  method GroupModels(models: seq<ModelEntry>) returns (grouped: map<string, seq<ModelEntry>>)
    ensures grouped.Keys == Names(models)
    ensures forall name :: name in grouped ==> grouped[name] == Group(models, name) != []
  {
    grouped := map[];
    for i := 0 to |models|
      invariant grouped.Keys == Names(models[..i])
      invariant forall name :: name in grouped ==> grouped[name] == Group(models[..i], name) != []
    {
      var entry := models[i];
      GroupNext(models, i);
      if entry.name in grouped {
        grouped := grouped[entry.name := grouped[entry.name] + [entry]];
      } else {
        grouped := grouped[entry.name := [entry]];
      }
    }
    assert models[..|models|] == models;
  }

  // Entry `k` of the group is entry `places[k]` of the configuration, and every entry of the name has a place.
  ghost predicate InPlaces(models: seq<ModelEntry>, name: string, group: seq<ModelEntry>, places: seq<nat>) {
    && |places| == |group|
    && (forall j, k :: 0 <= j < k < |places| ==> places[j] < places[k])
    && (forall k :: 0 <= k < |places| ==> places[k] < |models| && group[k] == models[places[k]])
    && (forall i :: 0 <= i < |models| ==> (i in places <==> models[i].name == name))
  }

  // The entries of a group are those with its name, in configured order.
  lemma {:induction false} GroupIsInOrder(models: seq<ModelEntry>, name: string) returns (places: seq<nat>)
    ensures InPlaces(models, name, Group(models, name), places)
  {
    hide InPlaces;
    places := [];
    if models == [] {
      assert InPlaces([], name, [], []) by { NoPlaces(name); }
    } else {
      var n := |models| - 1;
      places := GroupIsInOrder(models[..n], name);
      NextPlace(models, name, Group(models[..n], name), places);
      if models[n].name == name {
        places := places + [n];
      } else {
        assert Group(models[..n], name) + [] == Group(models[..n], name);
      }
    }
  }

  lemma NoPlaces(name: string)
    ensures InPlaces([], name, [], [])
  {
  }

  lemma NextPlace(models: seq<ModelEntry>, name: string, group: seq<ModelEntry>, places: seq<nat>)
    requires models != [] && InPlaces(models[..|models| - 1], name, group, places)
    ensures var n := |models| - 1;
            if models[n].name == name then InPlaces(models, name, group + [models[n]], places + [n])
            else InPlaces(models, name, group, places)
  {
    var n := |models| - 1;
    var init := models[..n];
    forall i | 0 <= i < n ensures init[i] == models[i] {
    }
    forall k | 0 <= k < |places| ensures places[k] != n {
    }
  }

  lemma GroupNext(models: seq<ModelEntry>, i: nat)
    requires i < |models|
    ensures Names(models[..i + 1]) == Names(models[..i]) + {models[i].name}
    ensures forall name :: Group(models[..i + 1], name) ==
                           Group(models[..i], name) + if models[i].name == name then [models[i]] else []
    ensures models[i].name !in Names(models[..i]) ==> Group(models[..i], models[i].name) == []
  {
    assert models[..i + 1] == models[..i] + [models[i]];
    assert models[..i + 1][..i] == models[..i];
    if models[i].name !in Names(models[..i]) {
      NoGroup(models[..i], models[i].name);
    }
  }

  lemma {:induction false} NoGroup(models: seq<ModelEntry>, name: string)
    requires name !in Names(models)
    ensures Group(models, name) == []
  {
    if models != [] {
      var init := models[..|models| - 1];
      assert models[|models| - 1] in models;
      forall n | n in Names(init) ensures n in Names(models) {
        var e :| e in init && e.name == n;
        assert e in models;
      }
      NoGroup(init, name);
    }
  }

  lemma {:induction false} HasGroup(models: seq<ModelEntry>, name: string)
    requires name in Names(models)
    ensures Group(models, name) != []
  {
    var last := models[|models| - 1];
    if last.name != name {
      var e :| e in models && e.name == name;
      assert models == models[..|models| - 1] + [last];
      assert e in models[..|models| - 1];
      HasGroup(models[..|models| - 1], name);
    }
  }

  /// One group

  function Sum(weights: seq<nat>): nat {
    if weights == [] then 0 else weights[0] + Sum(weights[1..])
  }

  predicate RouterAccepts(deployments: nat, strategy: Strategy) {
    deployments > 0 && (strategy.WeightedRandom? ==> |strategy.weights| == deployments && Sum(strategy.weights) > 0)
  }

  lemma {:induction false} SumIsPositive(weights: seq<nat>)
    ensures Sum(weights) > 0 <==> exists k :: 0 <= k < |weights| && weights[k] > 0
  {
    if weights != [] {
      SumIsPositive(weights[1..]);
      if k :| 0 <= k < |weights| && weights[k] > 0 {
        assert k > 0 ==> weights[1..][k - 1] > 0;
      }
      if Sum(weights[1..]) > 0 {
        var k :| 0 <= k < |weights[1..]| && weights[1..][k] > 0;
        assert weights[k + 1] > 0;
      }
    }
  }

  predicate AllBuild<C>(build: ModelEntry -> Result<C, string>, entries: seq<ModelEntry>) {
    forall k :: 0 <= k < |entries| ==> build(entries[k]).Ok?
  }

  predicate GroupBuilds<C>(build: ModelEntry -> Result<C, string>, strategy: Strategy, entries: seq<ModelEntry>) {
    AllBuild(build, entries) && entries != [] && (|entries| > 1 ==> RouterAccepts(|entries|, strategy))
  }

  // The client of the first entry that has none, or the router of entries that all have one.
  ghost predicate IsFirstFailure<C>(build: ModelEntry -> Result<C, string>, entries: seq<ModelEntry>,
                                    error: PoolError) {
    if error.ClientError? then exists k :: 0 <= k < |entries| && FailsAt(build, entries, k, error)
    else error == RouterError && AllBuild(build, entries)
  }

  ghost predicate FailsAt<C>(build: ModelEntry -> Result<C, string>, entries: seq<ModelEntry>, k: nat, error: PoolError)
    requires k < |entries| && error.ClientError?
  {
    error.entry == entries[k] && build(entries[k]) == Err(error.text) && AllBuild(build, entries[..k])
  }

  method DeploymentModelIds(entries: seq<ModelEntry>) returns (ids: seq<string>)
    ensures |ids| == |entries| && forall k :: 0 <= k < |entries| ==> ids[k] == entries[k].providerModel
  {
    ids := [];
    for i := 0 to |entries|
      invariant |ids| == i && forall k :: 0 <= k < i ==> ids[k] == entries[k].providerModel
    {
      ids := ids + [entries[i].providerModel];
    }
  }

  method BuildBaseService<C>(build: ModelEntry -> Result<C, string>, strategy: Strategy, entries: seq<ModelEntry>)
    returns (r: Result<(Base<C>, C), PoolError>)
    requires entries != []
    ensures r.Ok? <==> GroupBuilds(build, strategy, entries)
    ensures r.Ok? <==>
      && (forall k :: 0 <= k < |entries| ==> build(entries[k]).Ok?)
      && (|entries| > 1 && strategy.WeightedRandom? ==>
            |strategy.weights| == |entries| && exists k :: 0 <= k < |entries| && strategy.weights[k] > 0)
    ensures r.Ok? ==> Holds(build, strategy, entries, r.value.0, r.value.1)
    ensures r.Ok? ==> build(entries[0]) == Ok(r.value.1)
    ensures r.Ok? && |entries| == 1 ==> r.value.0 == Single(r.value.1)
    ensures r.Ok? && |entries| > 1 ==>
      var base := r.value.0;
      && base.Routed? && base.strategy == strategy && |base.deployments| == |base.models| == |entries|
      && forall k :: 0 <= k < |entries| ==>
           build(entries[k]) == Ok(base.deployments[k]) && base.models[k] == entries[k].providerModel
    ensures r.Err? ==> IsFirstFailure(build, entries, r.error)
  {
    if strategy.WeightedRandom? {
      SumIsPositive(strategy.weights);
    }
    if |entries| == 1 {
      var client := build(entries[0]);
      if client.Err? {
        assert FailsAt(build, entries, 0, ClientError(entries[0], client.error));
        return Err(ClientError(entries[0], client.error));
      }
      return Ok((Single(client.value), client.value));
    }
    var deployments: seq<C> := [];
    var firstClient: Option<C> := None;
    for i := 0 to |entries|
      invariant |deployments| == i && AllBuild(build, entries[..i])
      invariant forall k :: 0 <= k < i ==> build(entries[k]) == Ok(deployments[k])
      invariant firstClient == if i == 0 then None else Some(deployments[0])
    {
      var client := build(entries[i]);
      if client.Err? {
        assert FailsAt(build, entries, i, ClientError(entries[i], client.error));
        return Err(ClientError(entries[i], client.error));
      }
      if firstClient.None? {
        firstClient := Some(client.value);
      }
      deployments := deployments + [client.value];
    }
    var models := DeploymentModelIds(entries);
    if !RouterAccepts(|deployments|, strategy) {
      return Err(RouterError);
    }
    return Ok((Routed(deployments, strategy, models), firstClient.value));
  }

  /// The pool

  // One iteration order of a hash map with these keys.
  predicate IsOrder(order: seq<string>, keys: set<string>) {
    (forall j, k :: 0 <= j < k < |order| ==> order[j] != order[k]) && (set name | name in order) == keys
  }

  // What the pool holds for a name, given the entries of that name: the client of the first one, alone or in a
  // router whose deployment and model `k` both come from entry `k`.
  predicate Holds<C(==)>(build: ModelEntry -> Result<C, string>, strategy: Strategy, entries: seq<ModelEntry>,
                         base: Base<C>, client: C) {
    && GroupBuilds(build, strategy, entries) && build(entries[0]) == Ok(client)
    && if |entries| == 1 then base == Single(client)
       else
         && base.Routed? && base.strategy == strategy && |base.deployments| == |base.models| == |entries|
         && forall k :: 0 <= k < |entries| ==>
              build(entries[k]) == Ok(base.deployments[k]) && base.models[k] == entries[k].providerModel
  }

  ghost predicate HoldsAll<C>(build: ModelEntry -> Result<C, string>, strategy: Strategy,
                              grouped: map<string, seq<ModelEntry>>, services: map<string, Base<C>>,
                              clients: map<string, C>, names: set<string>) {
    && services.Keys == clients.Keys == names <= grouped.Keys
    && forall name :: name in names ==> Holds(build, strategy, grouped[name], services[name], clients[name])
  }

  lemma HoldsNext<C>(build: ModelEntry -> Result<C, string>, strategy: Strategy, grouped: map<string, seq<ModelEntry>>,
                     services: map<string, Base<C>>, clients: map<string, C>, names: set<string>,
                     name: string, base: Base<C>, client: C)
    requires HoldsAll(build, strategy, grouped, services, clients, names) && name in grouped
    requires Holds(build, strategy, grouped[name], base, client)
    ensures HoldsAll(build, strategy, grouped, services[name := base], clients[name := client], names + {name})
  {
    hide Holds;
  }

  lemma AllBuilt<C>(build: ModelEntry -> Result<C, string>, strategy: Strategy, grouped: map<string, seq<ModelEntry>>,
                    services: map<string, Base<C>>, clients: map<string, C>, names: set<string>)
    requires HoldsAll(build, strategy, grouped, services, clients, names)
    ensures forall name :: name in names ==> GroupBuilds(build, strategy, grouped[name])
  {
    hide GroupBuilds;
  }

  function Done(order: seq<string>, i: nat): set<string>
    requires i <= |order|
  {
    set k | 0 <= k < i :: order[k]
  }

  lemma DoneNext(order: seq<string>, i: nat, keys: set<string>)
    requires i < |order| && IsOrder(order, keys)
    ensures Done(order, i + 1) == Done(order, i) + {order[i]} && order[i] in keys && order[i] !in Done(order, i)
  {
    assert order[i] in set n | n in order;
  }

  lemma DoneIsAll(order: seq<string>, keys: set<string>)
    requires IsOrder(order, keys)
    ensures Done(order, |order|) == keys
  {
    forall name ensures name in Done(order, |order|) <==> name in keys {
      assert name in keys <==> name in set n | n in order;
    }
  }

  // The first group in the order that cannot be built, and its first failure.
  ghost predicate FirstGroupFails<C>(build: ModelEntry -> Result<C, string>, strategy: Strategy,
                                     grouped: map<string, seq<ModelEntry>>, order: seq<string>, error: PoolError)
    requires forall k :: 0 <= k < |order| ==> order[k] in grouped
  {
    exists i :: 0 <= i < |order| && IsFirstFailure(build, grouped[order[i]], error)
      && !GroupBuilds(build, strategy, grouped[order[i]])
      && forall j :: 0 <= j < i ==> GroupBuilds(build, strategy, grouped[order[j]])
  }

  lemma OrderIsOfKeys(order: seq<string>, keys: set<string>)
    requires IsOrder(order, keys)
    ensures forall k :: 0 <= k < |order| ==> order[k] in keys
  {
    forall k | 0 <= k < |order| ensures order[k] in keys {
      assert order[k] in set name | name in order;
    }
  }

  // The loop over the groups.
  method BuildPool<C>(build: ModelEntry -> Result<C, string>, strategy: Strategy,
                      grouped: map<string, seq<ModelEntry>>, order: seq<string>,
                      guardrails: seq<Guardrails.Guardrail>) returns (r: Result<Pool<C>, PoolError>)
    requires IsOrder(order, grouped.Keys) && forall name :: name in grouped ==> grouped[name] != []
    ensures r.Ok? <==> forall name :: name in grouped ==> GroupBuilds(build, strategy, grouped[name])
    ensures r.Ok? ==> HoldsAll(build, strategy, grouped, r.value.services, r.value.clients, grouped.Keys)
    ensures r.Ok? ==> r.value.guardrails == guardrails
    ensures r.Ok? ==>
      if order == [] then r.value.defaultClient == None
      else order[0] in r.value.clients && r.value.defaultClient == Some(r.value.clients[order[0]])
    ensures r.Err? ==> (forall k :: 0 <= k < |order| ==> order[k] in grouped)
                       && FirstGroupFails(build, strategy, grouped, order, r.error)
  {
    hide GroupBuilds, IsFirstFailure, IsOrder, Done, Holds;
    OrderIsOfKeys(order, grouped.Keys);
    var services: map<string, Base<C>>, clients: map<string, C> := map[], map[];
    var defaultClient: Option<C> := None;
    assert Done(order, 0) == {} by { NoneDone(order); }
    for i := 0 to |order|
      invariant HoldsAll(build, strategy, grouped, services, clients, Done(order, i))
      invariant forall j :: 0 <= j < i ==> GroupBuilds(build, strategy, grouped[order[j]])
      invariant if i == 0 then defaultClient == None
                else order[0] in clients && defaultClient == Some(clients[order[0]])
    {
      var name := order[i];
      DoneNext(order, i, grouped.Keys);
      var base := BuildBaseService(build, strategy, grouped[name]);
      if base.Err? {
        assert FirstGroupFails(build, strategy, grouped, order, base.error);
        return Err(base.error);
      }
      if defaultClient.None? {
        defaultClient := Some(base.value.1);
      }
      HoldsNext(build, strategy, grouped, services, clients, Done(order, i), name, base.value.0, base.value.1);
      services := services[name := base.value.0];
      clients := clients[name := base.value.1];
    }
    DoneIsAll(order, grouped.Keys);
    AllBuilt(build, strategy, grouped, services, clients, grouped.Keys);
    return Ok(Pool(services, clients, defaultClient, guardrails));
  }

  lemma NoneDone(order: seq<string>)
    ensures Done(order, 0) == {}
  {
  }

  function Groups(models: seq<ModelEntry>): map<string, seq<ModelEntry>> {
    map name | name in Names(models) :: Group(models, name)
  }

  predicate GuardrailsBuild(engines: Guardrails.Engines, entries: seq<Guardrails.Entry>) {
    forall i :: 0 <= i < |entries| ==> Guardrails.EntryError(engines, entries, i).None?
  }

  // What comes first: the first bad guardrail, then the strategy, then the first group that cannot be built.
  ghost predicate FirstErrorOfPool<C>(models: seq<ModelEntry>, build: ModelEntry -> Result<C, string>,
                                      strategy: Result<Strategy, string>, engines: Guardrails.Engines,
                                      entries: seq<Guardrails.Entry>, order: seq<string>, error: PoolError)
    requires IsOrder(order, Names(models))
  {
    OrderIsOfKeys(order, Names(models));
    if !GuardrailsBuild(engines, entries) then
      error.GuardrailError? && Guardrails.FirstError(engines, entries, error.cause)
    else if strategy.Err? then error == StrategyError(strategy.error)
    else FirstGroupFails(build, strategy.value, Groups(models), order, error)
  }

  // The client of a name: that of its first entry, if it can be built.
  function ClientOf<C>(models: seq<ModelEntry>, build: ModelEntry -> Result<C, string>, name: string): Option<C>
    requires name in Names(models)
  {
    HasGroup(models, name);
    var client := build(Group(models, name)[0]);
    if client.Ok? then Some(client.value) else None
  }

  // The client of the name that is visited first.
  function DefaultClient<C>(models: seq<ModelEntry>, build: ModelEntry -> Result<C, string>, order: seq<string>)
    : Option<C>
    requires IsOrder(order, Names(models))
  {
    if order == [] then None else
    OrderIsOfKeys(order, Names(models));
    ClientOf(models, build, order[0])
  }

  // A pool exactly when everything can be built, and the same services and clients for every order; only the
  // default client is the first client of whichever group comes first.
  method FromConfig<C>(models: seq<ModelEntry>, build: ModelEntry -> Result<C, string>,
                       strategy: Result<Strategy, string>, engines: Guardrails.Engines,
                       entries: seq<Guardrails.Entry>, order: seq<string>)
    returns (r: Result<Pool<C>, PoolError>)
    requires IsOrder(order, Names(models))
    ensures r.Ok? <==>
      && GuardrailsBuild(engines, entries) && strategy.Ok?
      && forall name :: name in Names(models) ==> GroupBuilds(build, strategy.value, Group(models, name))
    ensures r.Ok? ==>
      && r.value.services.Keys == r.value.clients.Keys == Names(models)
      && forall name :: name in Names(models) ==>
           Holds(build, strategy.value, Group(models, name), r.value.services[name], r.value.clients[name])
    ensures r.Ok? ==> forall name :: name in Names(models) ==>
      var entries, base := Group(models, name), r.value.services[name];
      && (|entries| == 1 ==> build(entries[0]).Ok? && base == Single(build(entries[0]).value))
      && (|entries| > 1 ==>
            && base.Routed? && base.strategy == strategy.value && |base.deployments| == |base.models| == |entries|
            && forall k :: 0 <= k < |entries| ==>
                 build(entries[k]) == Ok(base.deployments[k]) && base.models[k] == entries[k].providerModel)
    ensures r.Ok? ==> |r.value.guardrails| == |entries|
    ensures r.Ok? ==> forall i :: 0 <= i < |entries| ==>
      r.value.guardrails[i] == Guardrails.Guardrail(entries[i], Guardrails.ConfiguredStages(entries[i]))
    ensures r.Ok? ==> r.value.defaultClient == DefaultClient(models, build, order)
    ensures r.Err? ==> FirstErrorOfPool(models, build, strategy, engines, entries, order, r.error)
  {
    hide Guardrails.EntryError, GroupBuilds, Holds, Group, IsOrder, Guardrails.FirstError, FirstGroupFails;
    var guardrails := Guardrails.BuildRegistry(engines, entries);
    if guardrails.Err? {
      return Err(GuardrailError(guardrails.error));
    }
    var grouped := GroupModels(models);
    assert grouped == Groups(models);
    if strategy.Err? {
      return Err(StrategyError(strategy.error));
    }
    r := BuildPool(build, strategy.value, grouped, order, guardrails.value);
    if r.Ok? {
      forall name | name in Names(models) {
        HeldIsAligned(build, strategy.value, Group(models, name), r.value.services[name], r.value.clients[name]);
      }
    }
    if r.Ok? && order != [] {
      OrderIsOfKeys(order, Names(models));
      HeldIsBuilt(models, build, strategy.value, order[0], r.value.services[order[0]], r.value.clients[order[0]]);
    }
  }

  lemma HeldIsAligned<C>(build: ModelEntry -> Result<C, string>, strategy: Strategy, entries: seq<ModelEntry>,
                         base: Base<C>, client: C)
    requires Holds(build, strategy, entries, base, client)
    ensures |entries| == 1 ==> build(entries[0]).Ok? && base == Single(build(entries[0]).value)
    ensures |entries| > 1 ==>
      && base.Routed? && base.strategy == strategy && |base.deployments| == |base.models| == |entries|
      && forall k :: 0 <= k < |entries| ==>
           build(entries[k]) == Ok(base.deployments[k]) && base.models[k] == entries[k].providerModel
  {
  }

  lemma HeldIsBuilt<C>(models: seq<ModelEntry>, build: ModelEntry -> Result<C, string>, strategy: Strategy,
                       name: string, base: Base<C>, client: C)
    requires name in Names(models) && Holds(build, strategy, Group(models, name), base, client)
    ensures ClientOf(models, build, name) == Some(client)
  {
  }

  /// Conservation

  function AllGroups(models: seq<ModelEntry>, names: seq<string>): seq<ModelEntry> {
    if names == [] then [] else Group(models, names[0]) + AllGroups(models, names[1..])
  }

  lemma {:induction false} LastInGroups(models: seq<ModelEntry>, names: seq<string>)
    requires models != [] && forall j, k :: 0 <= j < k < |names| ==> names[j] != names[k]
    ensures var init, last := models[..|models| - 1], models[|models| - 1];
            multiset(AllGroups(models, names)) ==
            multiset(AllGroups(init, names)) + if last.name in names then multiset{last} else multiset{}
  {
    if names != [] {
      LastInGroups(models, names[1..]);
      assert names == [names[0]] + names[1..];
    }
  }

  // Every entry is in one group, once.
  lemma {:induction false} GroupsPartition(models: seq<ModelEntry>, order: seq<string>)
    requires forall j, k :: 0 <= j < k < |order| ==> order[j] != order[k]
    requires forall e :: e in models ==> e.name in order
    ensures multiset(AllGroups(models, order)) == multiset(models)
    decreases |models|
  {
    if models == [] {
      NoGroups(order);
    } else {
      var init, last := models[..|models| - 1], models[|models| - 1];
      assert models == init + [last];
      GroupsPartition(init, order);
      LastInGroups(models, order);
    }
  }

  lemma {:induction false} NoGroups(order: seq<string>)
    ensures AllGroups([], order) == []
  {
    if order != [] {
      NoGroups(order[1..]);
    }
  }

  /// The default client

  lemma {:induction false} SomeOrder(keys: set<string>) returns (order: seq<string>)
    ensures IsOrder(order, keys)
    decreases |keys|
  {
    if keys == {} {
      order := [];
      assert (set name | name in order) == {};
    } else {
      var name :| name in keys;
      order := OrderFrom(keys, name);
    }
  }

  lemma {:induction false} OrderFrom(keys: set<string>, name: string) returns (order: seq<string>)
    requires name in keys
    ensures IsOrder(order, keys) && order != [] && order[0] == name
    decreases |keys|, 0
  {
    var others := SomeOrder(keys - {name});
    forall k | 0 <= k < |others| ensures others[k] != name {
      assert others[k] in set n | n in others;
    }
    order := [name] + others;
    assert (set n | n in order) == {name} + set n | n in others;
  }

  lemma EmptyOrder(order: seq<string>, keys: set<string>)
    requires IsOrder(order, keys)
    ensures order == [] <==> keys == {}
  {
    if order == [] {
      assert (set name | name in order) == {};
    } else {
      OrderIsOfKeys(order, keys);
      assert order[0] in keys;
    }
  }

  // Every iteration order gives the same default client.
  ghost predicate OrderDoesNotMatter<C>(models: seq<ModelEntry>, build: ModelEntry -> Result<C, string>) {
    forall a, b :: IsOrder(a, Names(models)) && IsOrder(b, Names(models)) ==>
      DefaultClient(models, build, a) == DefaultClient(models, build, b)
  }

  lemma SameDefault<C>(models: seq<ModelEntry>, build: ModelEntry -> Result<C, string>, a: seq<string>, b: seq<string>)
    requires IsOrder(a, Names(models)) && IsOrder(b, Names(models))
    requires forall m, n :: m in Names(models) && n in Names(models) ==>
      ClientOf(models, build, m) == ClientOf(models, build, n)
    ensures DefaultClient(models, build, a) == DefaultClient(models, build, b)
  {
    hide Names, IsOrder, ClientOf;
    EmptyOrder(a, Names(models));
    EmptyOrder(b, Names(models));
    OrderIsOfKeys(a, Names(models));
    OrderIsOfKeys(b, Names(models));
  }

  // The documentation calls the default client deterministic for every iteration order. It is exactly when the
  // first entries of all configured names build the same client.
  lemma DefaultDependsOnOrder<C>(models: seq<ModelEntry>, build: ModelEntry -> Result<C, string>)
    ensures OrderDoesNotMatter(models, build) <==>
            forall m, n :: m in Names(models) && n in Names(models) ==>
              ClientOf(models, build, m) == ClientOf(models, build, n)
  {
    hide Names, IsOrder, ClientOf;
    if forall m, n :: m in Names(models) && n in Names(models) ==>
         ClientOf(models, build, m) == ClientOf(models, build, n) {
      forall a, b | IsOrder(a, Names(models)) && IsOrder(b, Names(models))
        ensures DefaultClient(models, build, a) == DefaultClient(models, build, b)
      {
        SameDefault(models, build, a, b);
      }
    } else {
      var m, n :| m in Names(models) && n in Names(models) && ClientOf(models, build, m) != ClientOf(models, build, n);
      var a := OrderFrom(Names(models), m);
      var b := OrderFrom(Names(models), n);
      assert DefaultClient(models, build, a) != DefaultClient(models, build, b);
    }
  }

  // A configuration of two names.
  const FAST := ModelEntry("fast", "openai/gpt-5-mini", "")
  const CHEAP := ModelEntry("cheap", "openai/gpt-5-nano", "")

  lemma TwoGroups()
    ensures Names([FAST, CHEAP]) == {"fast", "cheap"}
    ensures Group([FAST, CHEAP], "fast") == [FAST] && Group([FAST, CHEAP], "cheap") == [CHEAP]
  {
    assert "fast"[0] != "cheap"[0];
    var models := [FAST, CHEAP];
    assert FAST in models && CHEAP in models;
    assert models[..1] == [FAST] && [FAST][..0] == [];
    assert Group([FAST], "fast") == [FAST] && Group([FAST], "cheap") == [];
  }

  // Whatever clients its two entries build: each of the two orders gives another one.
  lemma TwoNamesTwoDefaults<C>(build: ModelEntry -> Result<C, string>)
    requires build(FAST).Ok? && build(CHEAP).Ok? && build(FAST) != build(CHEAP)
    ensures var models := [FAST, CHEAP];
            && IsOrder(["fast", "cheap"], Names(models)) && IsOrder(["cheap", "fast"], Names(models))
            && DefaultClient(models, build, ["fast", "cheap"]) == Some(build(FAST).value)
            && DefaultClient(models, build, ["cheap", "fast"]) == Some(build(CHEAP).value)
            && !OrderDoesNotMatter(models, build)
  {
    TwoGroups();
    hide Names, Group;
    assert "fast"[0] != "cheap"[0];
    assert (set name | name in ["fast", "cheap"]) == {"fast", "cheap"} == (set name | name in ["cheap", "fast"]);
    var models := [FAST, CHEAP];
    assert DefaultClient(models, build, ["fast", "cheap"]) != DefaultClient(models, build, ["cheap", "fast"]);
  }
}
