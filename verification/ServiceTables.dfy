/** The topology the service router resolves against, and the reference answers it must give. */
module ServiceTables {
  import opened Identifiers
  import opened SecretPolicy
  import opened Composition
  import opened Scopes

  datatype RouterInstance = RouterInstance(extensionId: Id, declared: Declarations, components: set<Id>, active: bool)

  /** Everything `topology_changed` guards. */
  datatype Tables = Tables(instances: map<Id, RouterInstance>, platform: PlatformTable, preferred: PreferenceTable)

  datatype ServiceError = Unavailable | NotConsumer | NotServiceContract | UnsupportedResolution | ResponseTooLarge

  /** Who calls, what, and whether the caller may still be starting. */
  datatype RouteKey = RouteKey(caller: ComponentRef, contract: ContractKey, allowInactive: bool)

  datatype BindingResult = Bound(resolution: Resolution, providers: seq<ComponentRef>) | Unbound(error: ServiceError)
  datatype RouteResult = Routed(provider: ComponentRef) | NoRoute(error: ServiceError)

  function Declared(t: Tables): Registry {
    map id | id in t.instances :: t.instances[id].declared
  }

  function ActiveIn(t: Tables): set<Id> {
    set id | id in t.instances && t.instances[id].active
  }

  ghost predicate SoundTables(t: Tables) {
    Coordinated(Declared(t), t.platform)
  }

  ghost predicate StartingCaller(t: Tables, key: RouteKey) {
    key.allowInactive && key.caller.instanceId in t.instances && !t.instances[key.caller.instanceId].active
  }

  /** What the caller's scope looks like to it: active instances, and while it is starting also its own
      definitions and its own consumer endpoints, but none of its providers. */
  ghost function CallerTopology(t: Tables, key: RouteKey): Topology
    requires key.caller.instanceId in t.instances
  {
    var scope := t.instances[key.caller.instanceId].declared.scopeId;
    var active := ActiveIn(t);
    var starting := if StartingCaller(t, key) then {key.caller.instanceId} else {};
    Topology(
      DefinitionsOf(Declared(t), scope, active + starting) + PlatformIn(t.platform, scope).Values,
      ProvidersOf(Declared(t), scope, active),
      ConsumersOf(Declared(t), scope, active)
        + (set c | c in ConsumersOf(Declared(t), scope, starting) && c.owner == key.caller),
      PreferencesIn(t.preferred, scope))
  }

  ghost predicate Consumes(topology: Topology, key: RouteKey, c: Consumer) {
    c in topology.consumers && c.owner == key.caller && c.contract == key.contract
  }

  /** Uncached resolution of the caller's binding. */
  ghost function BindingOf(t: Tables, grants: Grants, key: RouteKey): BindingResult {
    if key.caller.instanceId !in t.instances then Unbound(Unavailable)
    else BindingIn(CallerTopology(t, key), grants, key)
  }

  ghost function BindingIn(topology: Topology, grants: Grants, key: RouteKey): BindingResult {
    if !exists c :: Consumes(topology, key, c) then Unbound(NotConsumer)
    else if !Defined(topology.definitions, key.contract) then Unbound(Unavailable)
    else
      var d := DefinitionOf(topology.definitions, key.contract);
      if !d.protocol.Service? then Unbound(NotServiceContract)
      else
        var c :| Consumes(topology, key, c);
        match Outcome(topology, grants, c)
        case Selected(providers) => Bound(d.resolution, providers)
        case Failed(_) => Unbound(Unavailable)
  }

  function RouteFrom(binding: BindingResult): RouteResult {
    match binding
    case Unbound(error) => NoRoute(error)
    case Bound(_, providers) => if |providers| == 1 then Routed(providers[0]) else NoRoute(UnsupportedResolution)
  }

  /** Uncached single-provider routing. */
  ghost function RouteOf(t: Tables, grants: Grants, key: RouteKey): RouteResult {
    RouteFrom(BindingOf(t, grants, key))
  }

  lemma CallerTopologyIsWellFormed(t: Tables, key: RouteKey)
    requires SoundTables(t) && key.caller.instanceId in t.instances
    ensures WellFormed(CallerTopology(t, key))
  {
    hide Coordinated;
    var scope := t.instances[key.caller.instanceId].declared.scopeId;
    var active := ActiveIn(t);
    var starting := if StartingCaller(t, key) then {key.caller.instanceId} else {};
    ScopeDefinitionsCoherent(Declared(t), t.platform, scope, active + starting);
    ScopeIsWellFormed(Declared(t), t.platform, t.preferred, scope, active);
    ScopeIsWellFormed(Declared(t), t.platform, t.preferred, scope, active + starting);
    forall c | c in CallerTopology(t, key).consumers ensures c in ConsumersOf(Declared(t), scope, active + starting) {
      var id :| (Member(Declared(t), scope, active, id) || Member(Declared(t), scope, starting, id)) && c in Declared(t)[id].consumers;
      assert Member(Declared(t), scope, active + starting, id);
    }
  }

  /** A caller whose instance is active sees its scope as the engine's active composition does. */
  lemma ActiveCallerSeesScope(t: Tables, key: RouteKey)
    requires key.caller.instanceId in t.instances && t.instances[key.caller.instanceId].active
    ensures CallerTopology(t, key)
         == TopologyOfScope(Declared(t), t.platform, t.preferred, t.instances[key.caller.instanceId].declared.scopeId, ActiveIn(t))
  {
    var scope := t.instances[key.caller.instanceId].declared.scopeId;
    assert ActiveIn(t) + {} == ActiveIn(t);
    assert (set c | c in ConsumersOf(Declared(t), scope, {}) && c.owner == key.caller) == {};
  }
}
