/** The service router answers as the engine's own composition does. */
module EngineRouting {
  import opened Identifiers
  import opened SecretPolicy
  import opened Composition
  import opened Scopes
  import opened Planning
  import opened ServiceTables
  import opened ServiceRuntime
  import opened EngineModel
  import opened EngineSteps

  /** The snapshot binds the endpoint to exactly one provider, and its contract is a service. */
  ghost predicate BoundToOne(t: Topology, s: Snapshot, consumer: ComponentRef, contract: ContractKey, provider: ComponentRef) {
    && Defined(t.definitions, contract) && DefinitionOf(t.definitions, contract).protocol.Service?
    && exists b :: b in s.bindings && b.consumer == consumer && b.contract == contract && b.providers == [provider]
  }

  ghost function ActiveTopology(m: Model, scope: Id): Topology {
    ScopeTopology(ViewOf(m), scope, ActiveOf(m.extensions))
  }

  /** A service call by an active consumer reaches the provider that the composition snapshot of its scope
      binds, when that binding has exactly one provider and a service definition, and fails otherwise. */
  lemma CallsFollowComposition(m: Model, consumer: ComponentRef, contract: ContractKey, s: Snapshot)
    requires Sound(m) && OwnerActive(m.extensions, consumer)
    requires IsSnapshot(ActiveTopology(m, m.extensions[consumer.instanceId].declared.scopeId), m.grants, s)
    ensures var t := ActiveTopology(m, m.extensions[consumer.instanceId].declared.scopeId);
      forall provider :: RouteOf(m.router, m.grants, RouteKey(consumer, contract, false)) == Routed(provider)
        <==> BoundToOne(t, s, consumer, contract, provider)
  {
    hide Sound, IsSnapshot, BindingIn, CallerTopology, TopologyOfScope, WellFormed;
    MirrorDeclares(m);
    MirrorShows(m, consumer.instanceId);
    var key := RouteKey(consumer, contract, false);
    var t := ActiveTopology(m, m.extensions[consumer.instanceId].declared.scopeId);
    ActiveCallerSeesScope(m.router, key);
    assert CallerTopology(m.router, key) == t;
    CallerTopologyIsWellFormed(m.router, key);
    BindingFollowsSnapshot(t, m.grants, key, s);
  }

  lemma BindingFollowsSnapshot(t: Topology, grants: Grants, key: RouteKey, s: Snapshot)
    requires WellFormed(t) && IsSnapshot(t, grants, s)
    ensures forall provider :: RouteFrom(BindingIn(t, grants, key)) == Routed(provider) <==> BoundToOne(t, s, key.caller, key.contract, provider)
  {
    hide Outcome, StrictlySorted;
    if exists c :: Consumes(t, key, c) {
      var c :| Consumes(t, key, c);
      forall b | b in s.bindings && b.consumer == key.caller && b.contract == key.contract
        ensures Outcome(t, grants, c).Selected? && b.providers == Outcome(t, grants, c).providers
      {
        var d :| d in t.consumers && Binds(t, grants, d, b);
        assert d == c;
      }
      if Outcome(t, grants, c).Selected? {
        assert Binds(t, grants, c, ContractBinding(c.owner, c.contract, c.required, Outcome(t, grants, c).providers));
      }
      assert forall d | Consumes(t, key, d) :: d == c;
    } else {
      forall b | b in s.bindings ensures b.consumer != key.caller || b.contract != key.contract {
        var d :| d in t.consumers && Binds(t, grants, d, b);
        assert !Consumes(t, key, d);
      }
    }
  }

  /** Only active instances may call services. */
  lemma InactiveCallersAreRefused(m: Model, consumer: ComponentRef, contract: ContractKey)
    requires Sound(m) && !OwnerActive(m.extensions, consumer)
    ensures RouteOf(m.router, m.grants, RouteKey(consumer, contract, false)).NoRoute?
  {
    hide Sound, Coordinated, Outcome;
    MirrorDeclares(m);
    var key := RouteKey(consumer, contract, false);
    if consumer.instanceId in m.extensions {
      var t := CallerTopology(m.router, key);
      forall c ensures !Consumes(t, key, c) {
        if c in t.consumers {
          InactiveDeclaresNothing(m, m.router.instances[consumer.instanceId].declared.scopeId, c);
        }
      }
    }
  }

  lemma InactiveDeclaresNothing(m: Model, scope: Id, c: Consumer)
    requires Coordinated(RegistryOf(m.extensions), m.platform)
    requires c in ConsumersOf(RegistryOf(m.extensions), scope, ActiveOf(m.extensions))
               + (set d | d in ConsumersOf(RegistryOf(m.extensions), scope, {}) && d.owner == c.owner)
    ensures OwnerActive(m.extensions, c.owner)
  {
    var id :| Member(RegistryOf(m.extensions), scope, ActiveOf(m.extensions), id) && c in RegistryOf(m.extensions)[id].consumers;
    assert OwnDeclarations(id, RegistryOf(m.extensions)[id]);
  }
}
