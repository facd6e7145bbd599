/** Planning one activation batch: resolve every scope of the batch, then order it. */
module Planner {
  import opened Identifiers
  import opened SecretPolicy
  import opened Composition
  import opened DependencyGraph
  import opened Activation
  import opened Scopes
  import opened Gathering
  import opened Planning

  datatype BatchResult = UnknownInstance(instance: Id) | Plan(result: PlanResult)

  /** The scopes of the batch in order of first appearance, or the first unknown instance. */
  method BatchScopes(registry: Registry, batch: seq<Id>, ghost v: View) returns (scopes: seq<Id>, unknown: Option<Id>)
    requires v.registry == registry
    ensures unknown.None? ==> Known(v, batch) && scopes == ScopesOf(v, batch)
    ensures unknown.Some? ==> unknown.value in batch && unknown.value !in registry
  {
    scopes := [];
    for i := 0 to |batch|
      invariant Known(v, batch[..i]) && scopes == ScopesOf(v, batch[..i])
    {
      if batch[i] !in registry {
        return scopes, Some(batch[i]);
      }
      var longer := batch[..i + 1];
      assert longer[..|longer| - 1] == batch[..i] && longer[|longer| - 1] == batch[i];
      assert forall id | id in longer :: id in batch[..i] || id == batch[i];
      var scope := registry[batch[i]].scopeId;
      if scope !in scopes {
        scopes := scopes + [scope];
      }
    }
    assert batch[..|batch|] == batch;
    return scopes, None;
  }

  /** The least component among the eligible instances that define the contract. */
  method LeastDefinitionOwner(registry: Registry, scope: Id, among: set<Id>, contract: ContractKey) returns (r: Option<ComponentRef>)
    ensures r == var owners := DefinitionOwners(registry, scope, among, contract); if owners == {} then None else Some(LeastRef(owners))
  {
    var ids := Enumerate(registry.Keys);
    var owners: seq<ComponentRef> := [];
    for i := 0 to |ids|
      invariant forall owner :: owner in owners <==> DefinesWithin(registry, scope, among, contract, ids[..i], owner)
    {
      assert ids[i] in Elements(ids);
      assert ids[..i + 1] == ids[..i] + [ids[i]];
      var d := registry[ids[i]];
      if ids[i] in among && d.scopeId == scope {
        ghost var before := owners;
        for k := 0 to |d.definitions|
          invariant forall owner :: owner in owners <==> owner in before || OwnsBefore(d.definitions, k, contract, owner)
        {
          if d.definitions[k].definition.contract == contract {
            owners := owners + [d.definitions[k].owner];
          }
        }
      }
      VisitDefiner(registry, scope, among, contract, ids, i);
    }
    assert ids[..|ids|] == ids;
    AllDefiners(registry, scope, among, contract, ids, owners);
    r := LeastOfRefs(owners);
  }

  ghost predicate OwnsBefore(definitions: seq<OwnedDefinition>, k: nat, contract: ContractKey, owner: ComponentRef)
    requires k <= |definitions|
  {
    exists j :: 0 <= j < k && definitions[j].definition.contract == contract && definitions[j].owner == owner
  }

  ghost predicate DefinesWithin(registry: Registry, scope: Id, among: set<Id>, contract: ContractKey, ids: seq<Id>, owner: ComponentRef) {
    exists id :: id in ids && Member(registry, scope, among, id)
      && OwnsBefore(registry[id].definitions, |registry[id].definitions|, contract, owner)
  }

  lemma VisitDefiner(registry: Registry, scope: Id, among: set<Id>, contract: ContractKey, ids: seq<Id>, i: nat)
    requires i < |ids| && ids[i] in registry
    ensures forall owner :: DefinesWithin(registry, scope, among, contract, ids[..i + 1], owner) <==>
      DefinesWithin(registry, scope, among, contract, ids[..i], owner)
      || (ids[i] in among && registry[ids[i]].scopeId == scope
          && OwnsBefore(registry[ids[i]].definitions, |registry[ids[i]].definitions|, contract, owner))
  {
    hide OwnsBefore;
    assert ids[..i + 1] == ids[..i] + [ids[i]];
    assert forall id :: id in ids[..i + 1] <==> id in ids[..i] || id == ids[i];
  }

  lemma AllDefiners(registry: Registry, scope: Id, among: set<Id>, contract: ContractKey, ids: seq<Id>, owners: seq<ComponentRef>)
    requires Elements(ids) == registry.Keys
    requires forall owner :: owner in owners <==> DefinesWithin(registry, scope, among, contract, ids, owner)
    ensures Elements(owners) == DefinitionOwners(registry, scope, among, contract)
  {
    forall owner ensures owner in owners <==> Defines(registry, scope, among, contract, owner) {
      if id, o :| Member(registry, scope, among, id) && o in registry[id].definitions && o.definition.contract == contract && o.owner == owner {
        assert id in Elements(ids);
        var j :| 0 <= j < |registry[id].definitions| && registry[id].definitions[j] == o;
        assert OwnsBefore(registry[id].definitions, |registry[id].definitions|, contract, owner);
      }
    }
  }

  method LeastOfRefs(refs: seq<ComponentRef>) returns (r: Option<ComponentRef>)
    ensures r == if Elements(refs) == {} then None else Some(LeastRef(Elements(refs)))
  {
    if refs == [] {
      assert Elements(refs) == {};
      return None;
    }
    var least := refs[0];
    for i := 0 to |refs|
      invariant least in refs
      invariant forall j | 0 <= j < i :: refs[j] == least || KeyBefore(RefKey(least), RefKey(refs[j]))
    {
      KeyBeforeIsTotal(RefKey(least), RefKey(refs[i]));
      if KeyBefore(RefKey(refs[i]), RefKey(least)) {
        forall j | 0 <= j < i ensures refs[j] == refs[i] || KeyBefore(RefKey(refs[i]), RefKey(refs[j])) {
          if refs[j] != least {
            KeyBeforeIsTransitive(RefKey(refs[i]), RefKey(least), RefKey(refs[j]));
          }
        }
        least := refs[i];
      }
    }
    assert least in Elements(refs);
    assert IsLeastRef(Elements(refs), least);
    LeastRefIsUnique(Elements(refs), least);
    return Some(least);
  }

  /** The ordering pairs of one scope's required bindings on behalf of their definition owners. */
  method CollectDefinitionPairs(v: View, scope: Id, among: set<Id>, bindings: seq<ContractBinding>) returns (pairs: seq<Dependency>)
    ensures DefinitionPairs(v, scope, among, bindings, Elements(pairs))
  {
    hide DefinitionPair;
    pairs := [];
    for i := 0 to |bindings|
      invariant forall pair :: pair in pairs <==> PairedWithin(v, scope, among, bindings[..i], pair)
    {
      assert bindings[..i + 1] == bindings[..i] + [bindings[i]];
      var b := bindings[i];
      var found: Option<Dependency> := None;
      if b.required && b.contract !in PlatformIn(v.platform, scope) {
        var owner := LeastDefinitionOwner(v.registry, scope, among, b.contract);
        if owner.Some? {
          found := Some((owner.value.instanceId, b.consumer.instanceId));
          pairs := pairs + [found.value];
        }
      }
      OneBindingsPair(v, scope, among, b, found);
      assert forall pair :: PairedWithin(v, scope, among, bindings[..i + 1], pair) <==>
        PairedWithin(v, scope, among, bindings[..i], pair) || DefinitionPair(v, scope, among, b, pair);
    }
    assert bindings[..|bindings|] == bindings;
    assert forall pair :: pair in pairs <==> pair in Elements(pairs);
  }

  ghost predicate PairedWithin(v: View, scope: Id, among: set<Id>, bindings: seq<ContractBinding>, pair: Dependency) {
    exists b :: b in bindings && DefinitionPair(v, scope, among, b, pair)
  }

  lemma OneBindingsPair(v: View, scope: Id, among: set<Id>, b: ContractBinding, found: Option<Dependency>)
    requires found == if b.required && b.contract !in PlatformIn(v.platform, scope)
                         && DefinitionOwners(v.registry, scope, among, b.contract) != {}
                      then Some((LeastRef(DefinitionOwners(v.registry, scope, among, b.contract)).instanceId, b.consumer.instanceId))
                      else None
    ensures forall pair :: DefinitionPair(v, scope, among, b, pair) <==> found == Some(pair)
  {
  }

  /** Resolution of one scope among the given instances. */
  method ResolveScope(v: View, scope: Id, among: set<Id>, secrets: SecretManager) returns (snapshot: Snapshot)
    requires Coordinated(v.registry, v.platform) && v.grants == secrets.readGrants
    ensures IsSnapshot(ScopeTopology(v, scope, among), v.grants, snapshot)
  {
    hide Coordinated, IsSnapshot, WellFormed, DefinitionsOf, ProvidersOf, ConsumersOf;
    assert forall id | id in v.registry :: OwnDeclarations(id, v.registry[id]) by { RegistryOwns(v); }
    var e := GatherScope(v.registry, PlatformIn(v.platform, scope), scope, among, None);
    assert among + StartingSet(None, among) == among;
    NoStartingConsumers(v.registry, scope, among);
    ScopeDefinitionsCoherent(v.registry, v.platform, scope, among);
    assert Elements(e.definitions) == DefinitionsOf(v.registry, scope, among) + PlatformIn(v.platform, scope).Values;
    snapshot := ResolveContracts(e.definitions, e.providers, e.consumers, PreferencesIn(v.preferred, scope), secrets);
    assert TopologyOf(e.definitions, e.providers, e.consumers, PreferencesIn(v.preferred, scope)) == ScopeTopology(v, scope, among);
  }

  lemma RegistryOwns(v: View)
    requires Coordinated(v.registry, v.platform)
    ensures forall id | id in v.registry :: OwnDeclarations(id, v.registry[id])
  {
  }

  lemma NoStartingConsumers(registry: Registry, scope: Id, among: set<Id>)
    ensures StartingConsumers(registry, scope, None, among) == {}
  {
  }

  /** `plan_extension_activation`. */
  method PlanBatch(v: View, batch: seq<Id>, secrets: SecretManager) returns (r: BatchResult)
    requires Coordinated(v.registry, v.platform) && v.grants == secrets.readGrants
    ensures r.UnknownInstance? ==> r.instance in batch && r.instance !in v.registry
    ensures r.Plan? ==> Known(v, batch) && IsPlan(v, batch, r.result)
  {
    hide Coordinated, GatheredOne, Describes, ScopesOf;
    var scopes, unknown := BatchScopes(v.registry, batch, v);
    if unknown.Some? {
      return UnknownInstance(unknown.value);
    }
    var among := v.active + set id | id in batch;
    assert among == v.active + Elements(batch);
    var combined, extra := Snapshot([], []), [];
    assert Elements<Dependency>([]) == {};
    for i := 0 to |scopes|
      invariant Gathered(v, among, scopes[..i], combined, Elements(extra))
    {
      var head := ResolveScope(v, scopes[i], among, secrets);
      var pairs := CollectDefinitionPairs(v, scopes[i], among, head.bindings);
      GatherNext(v, among, scopes, i, combined, extra, head, pairs);
      combined := Snapshot(combined.bindings + head.bindings, combined.unresolved + head.unresolved);
      extra := extra + pairs;
    }
    assert scopes[..|scopes|] == scopes;
    var plan := BuildActivationPlan(combined, batch, extra);
    return Plan(plan);
  }

  lemma GatherNext(v: View, among: set<Id>, scopes: seq<Id>, i: nat, combined: Snapshot, extra: seq<Dependency>,
                   head: Snapshot, pairs: seq<Dependency>)
    requires i < |scopes| && Gathered(v, among, scopes[..i], combined, Elements(extra))
    requires IsSnapshot(ScopeTopology(v, scopes[i], among), v.grants, head)
    requires DefinitionPairs(v, scopes[i], among, head.bindings, Elements(pairs))
    ensures Gathered(v, among, scopes[..i + 1],
                     Snapshot(combined.bindings + head.bindings, combined.unresolved + head.unresolved), Elements(extra + pairs))
  {
    hide IsSnapshot, DefinitionPairs;
    var longer := scopes[..i + 1];
    assert longer[..|longer| - 1] == scopes[..i] && longer[|longer| - 1] == scopes[i];
    JoinElements(extra, pairs);
    assert GatheredOne(v, among, scopes[i], head, Elements(pairs));
  }
}
