/** The service router: route cache and provider handles over mutable scope tables. */
module ServiceRuntime {
  import opened Identifiers
  import opened SecretPolicy
  import opened Composition
  import opened Scopes
  import opened Gathering
  import opened ServiceTables
  import opened ProviderHandles

  datatype CachedRoute = CachedRoute(topologyRevision: nat, policyRevision: nat, result: RouteResult)

  datatype HandlesResult = Handles(values: seq<nat>) | NoHandles(error: ServiceError)
  datatype HandleTarget = Target(contract: ContractKey, provider: ComponentRef) | NoTarget

  const MAX_PROVIDERS_PER_CONTRACT: nat := 64

  class ServiceRuntime {
    const secrets: SecretManager
    var instances: map<Id, RouterInstance>
    var platform: PlatformTable
    var preferred: PreferenceTable
    var topologyRevision: nat
    var routeCache: map<RouteKey, CachedRoute>
    var nextHandle: nat
    var handlePolicyRevision: nat
    var handles: map<nat, HandleKey>
    var handleCache: map<HandleKey, nat>

    function Topology(): Tables
      reads this
    {
      Tables(instances, platform, preferred)
    }

    function HandleView(): HandleTable
      reads this
    {
      HandleTable(nextHandle, handlePolicyRevision, handles, handleCache)
    }

    /** Coordinated tables, live components behind every provider, inverse handle maps, and a cache that
        only holds entries of the current topology. */
    ghost predicate Valid()
      reads this
    {
      && SoundTables(Topology()) && ComponentsLive(instances)
      && Consistent(HandleView())
      && forall key | key in routeCache :: routeCache[key].topologyRevision == topologyRevision
    }

    /** No cached result stems from a later policy, and those recorded under the current policy revision
        are what resolution gives now. */
    ghost predicate CacheCurrent()
      reads this, secrets
    {
      forall key | key in routeCache ::
        && routeCache[key].policyRevision <= secrets.policyRevision
        && (routeCache[key].policyRevision == secrets.policyRevision ==>
              routeCache[key].result == RouteOf(Topology(), secrets.readGrants, key))
    }

    constructor (secrets: SecretManager)
      ensures Valid() && CacheCurrent() && this.secrets == secrets
      ensures Topology() == Tables(map[], map[], map[]) && routeCache == map[]
    {
      this.secrets := secrets;
      instances, platform, preferred := map[], map[], map[];
      topologyRevision, routeCache := 0, map[];
      nextHandle, handlePolicyRevision, handles, handleCache := 0, 0, map[], map[];
    }

    /** Every topology change empties the cache and the handle maps, so a revision that wraps around
        never meets an entry recorded before the wrap. */
    method TopologyChanged()
      modifies this`topologyRevision, this`routeCache, this`handles, this`handleCache
      ensures topologyRevision == NextRevision(old(topologyRevision))
      ensures routeCache == map[] && HandleView() == Forget(old(HandleView()))
    {
      topologyRevision := NextRevision(topologyRevision);
      routeCache, handles, handleCache := map[], map[], map[];
    }

    method DefinePlatformContract(scope: Id, definition: Definition) returns (ok: bool)
      requires Valid() && NoDefinition(Declared(Topology()), scope, definition.contract)
      modifies this
      ensures Valid() && (old(CacheCurrent()) ==> CacheCurrent())
      ensures instances == old(instances) && preferred == old(preferred)
      ensures ok <==> definition.contract !in PlatformIn(old(platform), scope)
                      || PlatformIn(old(platform), scope)[definition.contract] == definition
      ensures platform == if ok then PlatformWith(old(platform), scope, definition) else old(platform)
    {
      var definitions := PlatformIn(platform, scope);
      if definition.contract in definitions {
        ok := definitions[definition.contract] == definition;
        if ok {
          assert definitions[definition.contract := definition] == definitions;
          assert platform[scope := definitions] == platform;
        }
        return;
      }
      DefineKeepsSound(Topology(), scope, definition);
      platform := PlatformWith(platform, scope, definition);
      TopologyChanged();
      return true;
    }

    method ClearPlatformContracts(scope: Id)
      requires Valid()
      modifies this
      ensures Valid() && (old(CacheCurrent()) ==> CacheCurrent())
      ensures instances == old(instances) && preferred == old(preferred)
      ensures platform == old(platform) - {scope}
    {
      if scope in platform {
        platform := platform - {scope};
        TopologyChanged();
      } else {
        assert platform == platform - {scope};
      }
    }

    method RegisterInstance(id: Id, instance: RouterInstance) returns (ok: bool)
      requires Valid() && !instance.active
      requires Coordinated(Declared(Topology())[id := instance.declared], platform)
      requires LiveComponents(instance)
      modifies this
      ensures Valid() && (old(CacheCurrent()) ==> CacheCurrent())
      ensures platform == old(platform) && preferred == old(preferred)
      ensures ok <==> id !in old(instances)
      ensures instances == if ok then old(instances)[id := instance] else old(instances)
    {
      hide Coordinated, LiveComponents;
      if id in instances {
        return false;
      }
      assert Declared(Topology().(instances := instances[id := instance])) == Declared(Topology())[id := instance.declared];
      instances := instances[id := instance];
      TopologyChanged();
      return true;
    }

    method UnregisterInstance(id: Id)
      requires Valid()
      modifies this
      ensures Valid() && (old(CacheCurrent()) ==> CacheCurrent())
      ensures platform == old(platform) && preferred == old(preferred)
      ensures instances == old(instances) - {id}
    {
      if id in instances {
        assert Declared(Topology().(instances := instances - {id})) == Declared(Topology()) - {id};
        instances := instances - {id};
        TopologyChanged();
      } else {
        assert instances == instances - {id};
      }
    }

    /** `activate_instance` refuses an unknown instance and `deactivate_instance` ignores it. */
    method SetActive(id: Id, active: bool) returns (ok: bool)
      requires Valid()
      modifies this
      ensures Valid() && (old(CacheCurrent()) ==> CacheCurrent())
      ensures platform == old(platform) && preferred == old(preferred)
      ensures ok <==> id in old(instances)
      ensures instances == if ok then old(instances)[id := old(instances)[id].(active := active)] else old(instances)
    {
      if id !in instances {
        return false;
      }
      ok := true;
      if instances[id].active != active {
        assert Declared(Topology().(instances := instances[id := instances[id].(active := active)])) == Declared(Topology());
        instances := instances[id := instances[id].(active := active)];
        TopologyChanged();
      } else {
        assert instances[id].(active := active) == instances[id];
        assert instances == instances[id := instances[id]];
      }
    }

    method SetPreferredProvider(scope: Id, contract: ContractKey, provider: ComponentRef)
      requires Valid()
      modifies this
      ensures Valid() && (old(CacheCurrent()) ==> CacheCurrent())
      ensures instances == old(instances) && platform == old(platform)
      ensures preferred == old(preferred)[scope := PreferencesIn(old(preferred), scope)[contract := provider]]
    {
      var held := PreferencesIn(preferred, scope);
      if contract !in held || held[contract] != provider {
        preferred := preferred[scope := held[contract := provider]];
        TopologyChanged();
      } else {
        assert held[contract := provider] == held;
        assert preferred[scope := held] == preferred;
      }
    }

    method ClearPreferredProvider(scope: Id, contract: ContractKey)
      requires Valid()
      modifies this
      ensures Valid() && (old(CacheCurrent()) ==> CacheCurrent())
      ensures instances == old(instances) && platform == old(platform)
      ensures preferred == PreferencesWithout(old(preferred), scope, contract)
    {
      if scope in preferred && contract in preferred[scope] {
        var rest := preferred[scope] - {contract};
        preferred := if rest == map[] then preferred - {scope} else preferred[scope := rest];
        TopologyChanged();
      }
    }

    /** Uncached resolution, visiting instances in any order. */
    method ResolveBindingUncached(key: RouteKey) returns (r: BindingResult)
      requires Valid()
      ensures r == BindingOf(Topology(), secrets.readGrants, key)
    {
      hide SoundTables, CallerTopology, BindingIn, WellFormed;
      var caller := key.caller;
      if caller.instanceId !in instances {
        return Unbound(Unavailable);
      }
      var scope := instances[caller.instanceId].declared.scopeId;
      DeclarationsAreOwn(Topology());
      var starting := if key.allowInactive then Some(caller) else None;
      var e := GatherScope(Declared(Topology()), PlatformIn(platform, scope), scope, ActiveIn(Topology()), starting);
      GatheredIsCallerTopology(Topology(), key, starting, e, PreferencesIn(preferred, scope));
      r := ResolveAmong(e, PreferencesIn(preferred, scope), secrets, key);
    }

    /** Cached routing: a hit answers exactly as uncached resolution would, and so does every later hit. */
    method ResolveProvider(key: RouteKey) returns (r: RouteResult)
      requires Valid() && CacheCurrent()
      modifies this`routeCache
      ensures Valid() && CacheCurrent()
      ensures r == RouteOf(Topology(), secrets.readGrants, key)
      ensures r.Routed? ==> LiveIn(instances, r.provider)
    {
      if key in routeCache && routeCache[key].topologyRevision == topologyRevision
         && routeCache[key].policyRevision == secrets.policyRevision
      {
        r := routeCache[key].result;
        RoutedComponentIsLive(Topology(), secrets.readGrants, key);
        return;
      }
      var binding := ResolveBindingUncached(key);
      r := RouteFrom(binding);
      RoutedComponentIsLive(Topology(), secrets.readGrants, key);
      routeCache := routeCache[key := CachedRoute(topologyRevision, secrets.policyRevision, r)];
    }

    method SyncProviderHandlePolicy(revision: nat)
      requires Valid()
      modifies this`handlePolicyRevision, this`handles, this`handleCache
      ensures Valid() && HandleView() == SyncPolicy(old(HandleView()), revision)
    {
      if handlePolicyRevision != revision {
        handlePolicyRevision := revision;
        handles, handleCache := map[], map[];
      }
    }

    method IssueProviderHandle(key: HandleKey) returns (handle: Option<nat>)
      requires Valid()
      modifies this`nextHandle, this`handles, this`handleCache
      ensures Valid() && (HandleView(), handle) == Issue(old(HandleView()), key)
    {
      IssueKeepsConsistent(HandleView(), key);
      if key in handleCache {
        return Some(handleCache[key]);
      }
      if nextHandle + 1 >= U64_SIZE {
        return None;
      }
      nextHandle := nextHandle + 1;
      handles := handles[nextHandle := key];
      handleCache := handleCache[key := nextHandle];
      return Some(nextHandle);
    }

    /** Lists a `Multiple` binding as handles, one per provider in binding order. */
    method ListProviders(key: RouteKey) returns (r: HandlesResult)
      requires Valid()
      modifies this`handlePolicyRevision, this`nextHandle, this`handles, this`handleCache
      ensures Valid()
      ensures var binding := BindingOf(Topology(), secrets.readGrants, key);
        var synced := SyncPolicy(old(HandleView()), secrets.policyRevision);
        match binding
        case Unbound(error) => r == NoHandles(error) && HandleView() == synced
        case Bound(resolution, providers) =>
          if !resolution.Multiple? then r == NoHandles(UnsupportedResolution) && HandleView() == synced
          else if |providers| > MAX_PROVIDERS_PER_CONTRACT then r == NoHandles(ResponseTooLarge) && HandleView() == synced
          else var (table, values) := IssueAll(synced, key, providers);
               HandleView() == table && r == if values.Some? then Handles(values.value) else NoHandles(Unavailable)
    {
      SyncProviderHandlePolicy(secrets.policyRevision);
      ghost var synced := HandleView();
      var binding := ResolveBindingUncached(key);
      if binding.Unbound? {
        return NoHandles(binding.error);
      }
      if !binding.resolution.Multiple? {
        return NoHandles(UnsupportedResolution);
      }
      var providers := binding.providers;
      if |providers| > MAX_PROVIDERS_PER_CONTRACT {
        return NoHandles(ResponseTooLarge);
      }
      var values := IssueEach(key, providers);
      return if values.Some? then Handles(values.value) else NoHandles(Unavailable);
    }

    /** Issues one handle per provider, in order, until the counter runs out. */
    method IssueEach(key: RouteKey, providers: seq<ComponentRef>) returns (r: Option<seq<nat>>)
      requires Valid()
      modifies this`nextHandle, this`handles, this`handleCache
      ensures Valid()
      ensures (HandleView(), r) == IssueAll(old(HandleView()), key, providers)
    {
      hide SoundTables, ComponentsLive, Consistent;
      ghost var before := HandleView();
      var values: seq<nat> := [];
      for i := 0 to |providers|
        invariant Valid() && Topology() == old(Topology())
        invariant (HandleView(), Some(values)) == IssueAll(before, key, providers[..i])
      {
        IssueOneMore(before, key, providers, i);
        var handle := IssueProviderHandle(KeyFor(key, providers[i]));
        if handle.None? {
          IssueFailed(before, key, providers, i);
          return None;
        }
        values := values + [handle.value];
      }
      assert providers[..|providers|] == providers;
      return Some(values);
    }

    /** A handle answers only its own caller and mode, under the policy revision it was issued for. */
    method ResolveProviderHandle(caller: ComponentRef, handle: nat, allowInactive: bool) returns (r: HandleTarget)
      requires Valid()
      ensures r.Target? <==>
        && handlePolicyRevision == secrets.policyRevision && handle in handles
        && handles[handle].caller == caller && handles[handle].allowInactive == allowInactive
        && var provider := handles[handle].provider;
           provider.instanceId in instances && provider.componentId in instances[provider.instanceId].components
      ensures r.Target? ==> handles[handle] == HandleKey(caller, r.contract, r.provider, allowInactive)
    {
      if handlePolicyRevision != secrets.policyRevision || handle !in handles {
        return NoTarget;
      }
      var key := handles[handle];
      if key.caller != caller || key.allowInactive != allowInactive {
        return NoTarget;
      }
      if !LiveIn(instances, key.provider) {
        return NoTarget;
      }
      return Target(key.contract, key.provider);
    }
  }

  // ---------- helpers ----------

  predicate LiveIn(instances: map<Id, RouterInstance>, owner: ComponentRef) {
    owner.instanceId in instances && owner.componentId in instances[owner.instanceId].components
  }

  ghost predicate LiveComponents(instance: RouterInstance) {
    forall p | p in instance.declared.providers :: p.owner.componentId in instance.components
  }

  ghost predicate ComponentsLive(instances: map<Id, RouterInstance>) {
    forall id | id in instances :: LiveComponents(instances[id])
  }

  ghost predicate NoDefinition(registry: Registry, scope: Id, contract: ContractKey) {
    forall id, o | id in registry && registry[id].scopeId == scope && o in registry[id].definitions ::
      o.definition.contract != contract
  }

  function PlatformWith(platform: PlatformTable, scope: Id, definition: Definition): PlatformTable {
    platform[scope := PlatformIn(platform, scope)[definition.contract := definition]]
  }

  function PreferencesWithout(preferred: PreferenceTable, scope: Id, contract: ContractKey): PreferenceTable {
    if scope in preferred && contract in preferred[scope] then
      var rest := preferred[scope] - {contract};
      if rest == map[] then preferred - {scope} else preferred[scope := rest]
    else preferred
  }

  /** Defining a platform contract makes exactly it visible, in its scope and nowhere else. */
  lemma DefiningAddsOne(platform: PlatformTable, scope: Id, definition: Definition)
    ensures forall s, c :: var now, before := PlatformIn(PlatformWith(platform, scope, definition), s), PlatformIn(platform, s);
      if s == scope && c == definition.contract then c in now && now[c] == definition
      else (c in now <==> c in before) && (c in now ==> now[c] == before[c])
  {
  }

  /** Clearing a preference drops exactly it, and never leaves a scope without any behind. */
  lemma ClearingDropsOne(preferred: PreferenceTable, scope: Id, contract: ContractKey)
    ensures forall s, c :: var now, before := PreferencesIn(PreferencesWithout(preferred, scope, contract), s), PreferencesIn(preferred, s);
      if s == scope && c == contract then c !in now
      else (c in now <==> c in before) && (c in now ==> now[c] == before[c])
    ensures forall s | s in PreferencesWithout(preferred, scope, contract) && s in preferred && preferred[s] != map[] ::
      PreferencesWithout(preferred, scope, contract)[s] != map[]
  {
    if scope in preferred && contract in preferred[scope] && preferred[scope] - {contract} == map[] {
      assert forall c | c in preferred[scope] && c != contract :: c in preferred[scope] - {contract};
    }
  }

  lemma DefineKeepsSound(t: Tables, scope: Id, definition: Definition)
    requires SoundTables(t) && NoDefinition(Declared(t), scope, definition.contract)
    ensures SoundTables(t.(platform := PlatformWith(t.platform, scope, definition)))
  {
    var wider := PlatformWith(t.platform, scope, definition);
    forall id | id in Declared(t) ensures LeavesPlatform(wider, Declared(t)[id]) {
      assert LeavesPlatform(t.platform, Declared(t)[id]);
    }
  }

  lemma DeclarationsAreOwn(t: Tables)
    requires SoundTables(t)
    ensures forall id | id in Declared(t) :: OwnDeclarations(id, Declared(t)[id])
  {
  }

  /** Resolves the caller's binding among gathered endpoints. */
  method ResolveAmong(e: Endpoints, preferred: Preferences, secrets: SecretManager, key: RouteKey) returns (r: BindingResult)
    requires WellFormed(TopologyOf(e.definitions, e.providers, e.consumers, preferred))
    requires DistinctProviders(e.providers) && DistinctConsumers(e.consumers)
    ensures r == BindingIn(TopologyOf(e.definitions, e.providers, e.consumers, preferred), secrets.readGrants, key)
  {
    hide Outcome, IsSnapshot, DistinctProviders, DistinctConsumers;
    ghost var topology := TopologyOf(e.definitions, e.providers, e.consumers, preferred);
    var consumer := FindConsumer(e.consumers, key);
    if consumer.None? {
      return Unbound(NotConsumer);
    }
    assert Consumes(topology, key, consumer.value);
    var definition := FindDefinition(e.definitions, key.contract);
    if definition.None? {
      return Unbound(Unavailable);
    }
    if !definition.value.protocol.Service? {
      return Unbound(NotServiceContract);
    }
    var snapshot := ResolveContracts(e.definitions, e.providers, e.consumers, preferred, secrets);
    var found := FindBinding(snapshot.bindings, key);
    BindingFromSnapshot(topology, secrets.readGrants, key, consumer.value, snapshot, found);
    return if found.None? then Unbound(Unavailable) else Bound(definition.value.resolution, found.value.providers);
  }

  method FindConsumer(consumers: seq<Consumer>, key: RouteKey) returns (r: Option<Consumer>)
    ensures r.Some? ==> r.value in consumers && r.value.owner == key.caller && r.value.contract == key.contract
    ensures r.None? ==> forall c | c in consumers :: c.owner != key.caller || c.contract != key.contract
  {
    for i := 0 to |consumers|
      invariant forall j | 0 <= j < i :: consumers[j].owner != key.caller || consumers[j].contract != key.contract
    {
      if consumers[i].owner == key.caller && consumers[i].contract == key.contract {
        return Some(consumers[i]);
      }
    }
    return None;
  }

  method FindBinding(bindings: seq<ContractBinding>, key: RouteKey) returns (r: Option<ContractBinding>)
    ensures r.Some? ==> r.value in bindings && r.value.consumer == key.caller && r.value.contract == key.contract
    ensures r.None? ==> forall b | b in bindings :: b.consumer != key.caller || b.contract != key.contract
  {
    for i := 0 to |bindings|
      invariant forall j | 0 <= j < i :: bindings[j].consumer != key.caller || bindings[j].contract != key.contract
    {
      if bindings[i].consumer == key.caller && bindings[i].contract == key.contract {
        return Some(bindings[i]);
      }
    }
    return None;
  }

  lemma GatheredIsCallerTopology(t: Tables, key: RouteKey, starting: Option<ComponentRef>, e: Endpoints, preferred: Preferences)
    requires SoundTables(t) && key.caller.instanceId in t.instances
    requires starting == if key.allowInactive then Some(key.caller) else None
    requires var scope := t.instances[key.caller.instanceId].declared.scopeId;
      && preferred == PreferencesIn(t.preferred, scope)
      && Elements(e.definitions) == PlatformIn(t.platform, scope).Values + DefinitionsOf(Declared(t), scope, ActiveIn(t) + StartingSet(starting, ActiveIn(t)))
      && Elements(e.providers) == ProvidersOf(Declared(t), scope, ActiveIn(t))
      && Elements(e.consumers) == ConsumersOf(Declared(t), scope, ActiveIn(t)) + StartingConsumers(Declared(t), scope, starting, ActiveIn(t))
    ensures TopologyOf(e.definitions, e.providers, e.consumers, preferred) == CallerTopology(t, key)
    ensures WellFormed(CallerTopology(t, key))
  {
    CallerTopologyIsWellFormed(t, key);
    assert StartingSet(starting, ActiveIn(t)) == if StartingCaller(t, key) then {key.caller.instanceId} else {};
    hide DefinitionsOf, ProvidersOf, ConsumersOf;
    var scope := t.instances[key.caller.instanceId].declared.scopeId;
    assert StartingConsumers(Declared(t), scope, starting, ActiveIn(t))
        == set c | c in ConsumersOf(Declared(t), scope, StartingSet(starting, ActiveIn(t))) && c.owner == key.caller;
  }

  lemma BindingFromSnapshot(topology: Topology, grants: Grants, key: RouteKey, c: Consumer, snapshot: Snapshot,
                            found: Option<ContractBinding>)
    requires WellFormed(topology) && IsSnapshot(topology, grants, snapshot)
    requires Consumes(topology, key, c) && Defined(topology.definitions, key.contract)
    requires DefinitionOf(topology.definitions, key.contract).protocol.Service?
    requires found.Some? ==> found.value in snapshot.bindings && found.value.consumer == key.caller && found.value.contract == key.contract
    requires found.None? ==> forall b | b in snapshot.bindings :: b.consumer != key.caller || b.contract != key.contract
    ensures BindingIn(topology, grants, key)
         == if found.None? then Unbound(Unavailable)
            else Bound(DefinitionOf(topology.definitions, key.contract).resolution, found.value.providers)
  {
    hide Outcome, StrictlySorted;
    var outcome := Outcome(topology, grants, c);
    assert forall d | Consumes(topology, key, d) :: d == c;
    if found.Some? {
      var d :| d in topology.consumers && Binds(topology, grants, d, found.value);
      assert Consumes(topology, key, d);
    } else {
      var b := ContractBinding(c.owner, c.contract, c.required, if outcome.Selected? then outcome.providers else []);
      assert b !in snapshot.bindings;
      assert !Binds(topology, grants, c, b);
    }
  }

  lemma RoutedComponentIsLive(t: Tables, grants: Grants, key: RouteKey)
    requires SoundTables(t) && ComponentsLive(t.instances)
    ensures RouteOf(t, grants, key).Routed? ==> LiveIn(t.instances, RouteOf(t, grants, key).provider)
  {
    hide Coordinated;
    var r := RouteOf(t, grants, key);
    if r.Routed? {
      var topology := CallerTopology(t, key);
      var c :| Consumes(topology, key, c);
      var scope := t.instances[key.caller.instanceId].declared.scopeId;
      var selection := BindingIn(topology, grants, key);
      SelectedAreOffered(topology, grants, key, r.provider);
      var p :| p in topology.providers && p.owner == r.provider;
      var id :| Member(Declared(t), scope, ActiveIn(t), id) && p in Declared(t)[id].providers;
      DeclarationsAreOwn(t);
      assert LiveComponents(t.instances[id]);
    }
  }

  lemma SelectedAreOffered(topology: Topology, grants: Grants, key: RouteKey, provider: ComponentRef)
    requires BindingIn(topology, grants, key).Bound? && provider in BindingIn(topology, grants, key).providers
    ensures exists p :: p in topology.providers && p.owner == provider
  {
    var eligible := EligibleOwners(topology.providers, key.contract, grants);
    assert provider in eligible by {
      if DefinitionOf(topology.definitions, key.contract).resolution.Multiple? {
        assert provider in Elements(Listing(eligible));
      }
    }
    var p :| p in topology.providers && p.contract == key.contract && p.owner == provider && ProviderEligible(grants, p);
  }

  lemma IssueOneMore(h: HandleTable, key: RouteKey, providers: seq<ComponentRef>, i: nat)
    requires i < |providers| && IssueAll(h, key, providers[..i]).1.Some?
    ensures var (before, earlier) := IssueAll(h, key, providers[..i]);
      var (after, handle) := Issue(before, KeyFor(key, providers[i]));
      IssueAll(h, key, providers[..i + 1]) == (after, if handle.None? then None else Some(earlier.value + [handle.value]))
  {
    var longer := providers[..i + 1];
    assert longer[..|longer| - 1] == providers[..i];
  }

  /** The first failure ends the listing. */
  lemma {:induction false} IssueFailed(h: HandleTable, key: RouteKey, providers: seq<ComponentRef>, i: nat)
    requires i < |providers| && IssueAll(h, key, providers[..i + 1]).1.None?
    ensures IssueAll(h, key, providers) == IssueAll(h, key, providers[..i + 1])
    decreases |providers|
  {
    if i + 1 == |providers| {
      assert providers[..i + 1] == providers;
    } else {
      var front := providers[..|providers| - 1];
      assert front[..i + 1] == providers[..i + 1];
      IssueFailed(h, key, front, i);
    }
  }
}
