/** The abstract state of the extension engine, its transitions, and the invariants they keep. */
module EngineModel {
  import opened Identifiers
  import opened SecretPatterns
  import opened SecretPolicy
  import opened Composition
  import opened DependencyGraph
  import opened Scopes
  import opened Planning
  import opened RuntimeEffects
  import opened ExecutionTargets
  import opened ServiceTables
  import opened ServiceRuntime

  datatype ComponentDescriptor = ComponentDescriptor(id: Id, target: string, required: bool, secretRead: seq<Pattern>, runtime: set<Id>)
  datatype Manifest = Manifest(id: Id, components: seq<ComponentDescriptor>)

  predicate ValidManifest(m: Manifest) {
    && (forall i, j | 0 <= i < j < |m.components| :: m.components[i].id != m.components[j].id)
    && forall i | 0 <= i < |m.components| :: ValidTarget(m.components[i].target)
  }

  datatype State = Registered | Active | Stopped

  /** One execution target an instance was instantiated with, and who provided it. */
  datatype TargetDependency = TargetDependency(componentId: Id, target: string, provider: ComponentRef)

  datatype Extension = Extension(manifest: Manifest, state: State, components: seq<Id>, contributions: seq<Id>,
                                 declared: Declarations, dependencies: seq<TargetDependency>)

  type Extensions = map<Id, Extension>
  type Contributions = set<(Id, Id)>
  type Permissions = map<ComponentRef, set<Id>>

  /** Everything the engine owns, with its router's tables; `order` numbers the registrations. */
  datatype Model = Model(
    extensions: Extensions,
    contributions: Contributions,
    effects: Effects,
    hosts: Hosts,
    grants: Grants,
    permissions: Permissions,
    preferred: PreferenceTable,
    platform: PlatformTable,
    router: Tables,
    order: map<Id, nat>,
    nextOrder: nat)

  function RegistryOf(extensions: Extensions): Registry {
    map id | id in extensions :: extensions[id].declared
  }

  function ActiveOf(extensions: Extensions): set<Id> {
    set id | id in extensions && extensions[id].state.Active?
  }

  function ViewOf(m: Model): View {
    View(RegistryOf(m.extensions), m.platform, m.preferred, m.grants, ActiveOf(m.extensions))
  }

  // ---------- soundness ----------

  ghost function RouterEntry(e: Extension): RouterInstance {
    RouterInstance(e.manifest.id, e.declared, Elements(e.components), e.state.Active?)
  }

  /** The router shows exactly the engine's instances, activity, platform contracts and preferences. */
  ghost predicate Mirrored(m: Model) {
    && m.router.platform == m.platform && m.router.preferred == m.preferred
    && m.router.instances.Keys == m.extensions.Keys
    && forall id | id in m.extensions :: m.router.instances[id] == RouterEntry(m.extensions[id])
  }

  ghost predicate OwnerActive(extensions: Extensions, owner: ComponentRef) {
    owner.instanceId in extensions && extensions[owner.instanceId].state.Active?
  }

  /** Effects and execution targets belong to active instances only. */
  ghost predicate OwnedByActive(extensions: Extensions, effects: Effects, hosts: Hosts) {
    && (forall id | id in effects :: OwnerActive(extensions, effects[id].owner))
    && forall target | target in hosts :: OwnerActive(extensions, hosts[target])
  }

  predicate DependsOn(e: Extension, provider: Id) {
    exists i :: 0 <= i < |e.dependencies| && e.dependencies[i].provider.instanceId == provider
  }

  /** Dependency edges lead to registered instances that were registered earlier. */
  ghost predicate EdgesPointBack(extensions: Extensions, order: map<Id, nat>, nextOrder: nat) {
    && order.Keys == extensions.Keys
    && (forall id | id in order :: order[id] < nextOrder)
    && forall id, p | id in extensions && DependsOn(extensions[id], p) :: p in extensions && order[p] < order[id]
  }

  /** The component is declared by the manifest of its registered instance. */
  ghost predicate HasComponent(extensions: Extensions, owner: ComponentRef, c: ComponentDescriptor) {
    owner.instanceId in extensions && c in extensions[owner.instanceId].manifest.components && c.id == owner.componentId
  }

  ghost predicate Requested(extensions: Extensions, owner: ComponentRef, pattern: Pattern) {
    exists c, r :: HasComponent(extensions, owner, c) && r in c.secretRead && AllowsPattern(r, pattern)
  }

  /** Every held secret grant narrows a request of the component's own manifest. */
  ghost predicate GrantsRequested(extensions: Extensions, grants: Grants) {
    forall owner, pattern | owner in grants && pattern in grants[owner] :: Requested(extensions, owner, pattern)
  }

  ghost predicate PermissionRequested(extensions: Extensions, owner: ComponentRef, permission: Id) {
    exists c :: HasComponent(extensions, owner, c) && permission in c.runtime
  }

  /** Every held runtime permission was requested by the component's own manifest. */
  ghost predicate PermissionsRequested(extensions: Extensions, permissions: Permissions) {
    forall owner | owner in permissions ::
      permissions[owner] != {} && forall p | p in permissions[owner] :: PermissionRequested(extensions, owner, p)
  }

  ghost predicate WellPatterned(m: Manifest) {
    forall c, r | c in m.components && r in c.secretRead :: Valid(r)
  }

  ghost predicate ManifestsValid(extensions: Extensions) {
    forall id | id in extensions :: ValidManifest(extensions[id].manifest) && WellPatterned(extensions[id].manifest)
  }

  ghost predicate ProvidersLive(e: Extension) {
    forall p | p in e.declared.providers :: p.owner.componentId in e.components
  }

  ghost predicate NoEmptyPreferences(preferred: PreferenceTable) {
    forall scope | scope in preferred :: preferred[scope] != map[]
  }

  ghost predicate Sound(m: Model) {
    && Coordinated(RegistryOf(m.extensions), m.platform)
    && Mirrored(m)
    && OwnedByActive(m.extensions, m.effects, m.hosts)
    && EdgesPointBack(m.extensions, m.order, m.nextOrder)
    && GrantsRequested(m.extensions, m.grants) && ValidGrants(m.grants)
    && PermissionsRequested(m.extensions, m.permissions)
    && ManifestsValid(m.extensions)
    && NoEmptyPreferences(m.preferred)
  }

  // ---------- contribution ownership ----------

  ghost predicate HoldsKey(extensions: Extensions, id: Id, key: (Id, Id)) {
    && id in extensions && !extensions[id].state.Stopped?
    && extensions[id].declared.scopeId == key.0 && key.1 in extensions[id].contributions
  }

  /** `active_contributions` is the disjoint per-scope union over the instances that are not stopped. */
  ghost predicate ContributionsOwned(extensions: Extensions, contributions: Contributions) {
    && (forall key :: key in contributions <==> exists id :: HoldsKey(extensions, id, key))
    && (forall a, b, key | HoldsKey(extensions, a, key) && HoldsKey(extensions, b, key) :: a == b)
  }

  function KeysOf(e: Extension): (keys: Contributions)
    ensures forall key :: key in keys <==> key.0 == e.declared.scopeId && key.1 in e.contributions
  {
    set c | c in e.contributions :: (e.declared.scopeId, c)
  }

  function KeysOfAll(extensions: Extensions, ids: set<Id>): (keys: Contributions)
    ensures forall key :: key in keys <==> exists id :: id in ids && id in extensions && key in KeysOf(extensions[id])
  {
    set id, key | id in ids && id in extensions && key in KeysOf(extensions[id]) :: key
  }

  // ---------- transitions ----------

  function WithStates(extensions: Extensions, ids: set<Id>, state: State): Extensions {
    map id | id in extensions :: if id in ids then extensions[id].(state := state) else extensions[id]
  }

  function WithActivity(router: Tables, ids: set<Id>, active: bool): Tables {
    router.(instances := map id | id in router.instances ::
      if id in ids then router.instances[id].(active := active) else router.instances[id])
  }

  function EffectsOfOthers(effects: Effects, ids: set<Id>): Effects {
    map id | id in effects && effects[id].owner.instanceId !in ids :: effects[id]
  }

  function HostsOfOthers(hosts: Hosts, ids: set<Id>): Hosts {
    map target | target in hosts && hosts[target].instanceId !in ids :: hosts[target]
  }

  /** The instances stop: their contributions, effects and execution targets go with them. */
  function StoppedAll(m: Model, ids: set<Id>): Model {
    m.(extensions := WithStates(m.extensions, ids, Stopped),
       router := WithActivity(m.router, ids, false),
       contributions := m.contributions - KeysOfAll(m.extensions, ids),
       effects := EffectsOfOthers(m.effects, ids), hosts := HostsOfOthers(m.hosts, ids))
  }

  /** The instance becomes active with whatever its own callbacks registered. */
  function StartedModel(m: Model, id: Id, effects: Effects, hosts: Hosts): Model
    requires id in m.extensions
  {
    m.(extensions := WithStates(m.extensions, {id}, Active),
       router := WithActivity(m.router, {id}, true),
       contributions := if m.extensions[id].state.Stopped? then m.contributions + KeysOf(m.extensions[id]) else m.contributions,
       effects := effects, hosts := hosts)
  }

  function GrantsOfOthers(grants: Grants, id: Id): Grants {
    map owner | owner in grants && owner.instanceId != id :: grants[owner]
  }

  function PermissionsOfOthers(permissions: Permissions, id: Id): Permissions {
    map owner | owner in permissions && owner.instanceId != id :: permissions[owner]
  }

  /** The instance is gone, with every grant and permission of its components. */
  function RemovedModel(m: Model, id: Id): Model
    requires id in m.extensions
  {
    m.(extensions := m.extensions - {id},
       contributions := m.contributions - KeysOf(m.extensions[id]),
       grants := GrantsOfOthers(m.grants, id), permissions := PermissionsOfOthers(m.permissions, id),
       router := m.router.(instances := m.router.instances - {id}),
       hosts := HostsOfOthers(m.hosts, {id}),
       order := m.order - {id})
  }

  /** A new instance joins, registered and inactive. */
  ghost function JoinedModel(m: Model, id: Id, e: Extension): Model {
    m.(extensions := m.extensions[id := e], contributions := m.contributions + KeysOf(e),
       router := m.router.(instances := m.router.instances[id := RouterEntry(e)]),
       order := m.order[id := m.nextOrder], nextOrder := m.nextOrder + 1)
  }

  // ---------- what depends on declarations alone ----------

  /** Same instances, differing in their states at most. */
  ghost predicate SameDeclarations(a: Extensions, b: Extensions) {
    a.Keys == b.Keys && forall id | id in a :: a[id].(state := b[id].state) == b[id]
  }

  lemma StatesKeepDeclarations(extensions: Extensions, ids: set<Id>, state: State)
    ensures SameDeclarations(extensions, WithStates(extensions, ids, state))
  {
  }

  lemma DeclarationsCarry(a: Extensions, b: Extensions, order: map<Id, nat>, nextOrder: nat, grants: Grants, permissions: Permissions)
    requires SameDeclarations(a, b)
    ensures RegistryOf(a) == RegistryOf(b)
    ensures EdgesPointBack(a, order, nextOrder) ==> EdgesPointBack(b, order, nextOrder)
    ensures ManifestsValid(a) ==> ManifestsValid(b)
    ensures GrantsRequested(a, grants) ==> GrantsRequested(b, grants)
    ensures PermissionsRequested(a, permissions) ==> PermissionsRequested(b, permissions)
  {
    hide ValidManifest, WellPatterned, AllowsPattern;
    assert forall id, p | id in a :: DependsOn(a[id], p) <==> DependsOn(b[id], p);
    forall owner, c ensures HasComponent(a, owner, c) <==> HasComponent(b, owner, c) {
    }
    hide HasComponent;
    forall owner, pattern ensures Requested(a, owner, pattern) ==> Requested(b, owner, pattern) {
    }
    forall owner, p ensures PermissionRequested(a, owner, p) ==> PermissionRequested(b, owner, p) {
    }
  }

  // ---------- stopping ----------

  lemma StopKeepsSound(m: Model, ids: set<Id>)
    requires Sound(m)
    ensures Sound(StoppedAll(m, ids))
  {
    hide Coordinated, Mirrored, OwnedByActive, EdgesPointBack, GrantsRequested, PermissionsRequested, ManifestsValid, ValidGrants;
    var n := StoppedAll(m, ids);
    StatesKeepDeclarations(m.extensions, ids, Stopped);
    DeclarationsCarry(m.extensions, n.extensions, m.order, m.nextOrder, m.grants, m.permissions);
    StopKeepsMirror(m, ids);
    StopKeepsOwners(m.extensions, m.effects, m.hosts, ids);
  }

  lemma StopKeepsMirror(m: Model, ids: set<Id>)
    requires Mirrored(m)
    ensures Mirrored(StoppedAll(m, ids))
  {
  }

  lemma StopKeepsOwners(extensions: Extensions, effects: Effects, hosts: Hosts, ids: set<Id>)
    requires OwnedByActive(extensions, effects, hosts)
    ensures OwnedByActive(WithStates(extensions, ids, Stopped), EffectsOfOthers(effects, ids), HostsOfOthers(hosts, ids))
  {
  }

  lemma StopKeepsContributions(m: Model, ids: set<Id>)
    requires ContributionsOwned(m.extensions, m.contributions)
    requires forall id | id in ids && id in m.extensions :: !m.extensions[id].state.Stopped?
    ensures ContributionsOwned(StoppedAll(m, ids).extensions, StoppedAll(m, ids).contributions)
  {
    var n := StoppedAll(m, ids);
    forall x, key ensures HoldsKey(n.extensions, x, key) <==> HoldsKey(m.extensions, x, key) && x !in ids {
    }
    forall id, key | id in ids && id in m.extensions ensures key in KeysOf(m.extensions[id]) <==> HoldsKey(m.extensions, id, key) {
    }
    hide HoldsKey;
    forall key ensures key in n.contributions <==> exists x :: HoldsKey(n.extensions, x, key) {
    }
  }

  /** Stopping one set after another is stopping their union. */
  lemma StopsCompose(m: Model, a: set<Id>, b: set<Id>)
    ensures StoppedAll(StoppedAll(m, a), b) == StoppedAll(m, a + b)
  {
    hide WithStates, WithActivity, EffectsOfOthers, HostsOfOthers, KeysOfAll;
    StatesCompose(m.extensions, a, b);
    ActivityComposes(m.router, a, b);
    OthersCompose(m.effects, m.hosts, a, b);
    KeysCompose(m.extensions, a, b);
    assert (m.contributions - KeysOfAll(m.extensions, a)) - KeysOfAll(WithStates(m.extensions, a, Stopped), b)
        == m.contributions - KeysOfAll(m.extensions, a + b);
  }

  lemma StatesCompose(extensions: Extensions, a: set<Id>, b: set<Id>)
    ensures WithStates(WithStates(extensions, a, Stopped), b, Stopped) == WithStates(extensions, a + b, Stopped)
  {
  }

  lemma ActivityComposes(router: Tables, a: set<Id>, b: set<Id>)
    ensures WithActivity(WithActivity(router, a, false), b, false) == WithActivity(router, a + b, false)
  {
    assert WithActivity(WithActivity(router, a, false), b, false).instances == WithActivity(router, a + b, false).instances;
  }

  lemma OthersCompose(effects: Effects, hosts: Hosts, a: set<Id>, b: set<Id>)
    ensures EffectsOfOthers(EffectsOfOthers(effects, a), b) == EffectsOfOthers(effects, a + b)
    ensures HostsOfOthers(HostsOfOthers(hosts, a), b) == HostsOfOthers(hosts, a + b)
  {
  }

  lemma KeysCompose(extensions: Extensions, a: set<Id>, b: set<Id>)
    ensures KeysOfAll(extensions, a) + KeysOfAll(WithStates(extensions, a, Stopped), b) == KeysOfAll(extensions, a + b)
  {
    var first := WithStates(extensions, a, Stopped);
    forall id | id in extensions ensures KeysOf(first[id]) == KeysOf(extensions[id]) {
    }
    hide WithStates, KeysOf;
    forall key ensures key in KeysOfAll(first, b) <==> key in KeysOfAll(extensions, b) {
      assert first.Keys == extensions.Keys;
    }
  }

  lemma StopNothing(m: Model)
    ensures StoppedAll(m, {}) == m
  {
    assert WithStates(m.extensions, {}, Stopped) == m.extensions;
    assert WithActivity(m.router, {}, false).instances == m.router.instances;
    assert EffectsOfOthers(m.effects, {}) == m.effects && HostsOfOthers(m.hosts, {}) == m.hosts;
    assert KeysOfAll(m.extensions, {}) == {};
  }

  // ---------- starting ----------

  ghost predicate OnlyOwn(m: Model, id: Id, effects: Effects, hosts: Hosts) {
    && EffectsOfOthers(effects, {id}) == EffectsOfOthers(m.effects, {id})
    && HostsOfOthers(hosts, {id}) == HostsOfOthers(m.hosts, {id})
  }

  lemma StartKeepsSound(m: Model, id: Id, effects: Effects, hosts: Hosts)
    requires Sound(m) && id in m.extensions && OnlyOwn(m, id, effects, hosts)
    ensures Sound(StartedModel(m, id, effects, hosts))
  {
    hide Coordinated, Mirrored, OwnedByActive, EdgesPointBack, GrantsRequested, PermissionsRequested, ManifestsValid, ValidGrants, OnlyOwn;
    var n := StartedModel(m, id, effects, hosts);
    StatesKeepDeclarations(m.extensions, {id}, Active);
    DeclarationsCarry(m.extensions, n.extensions, m.order, m.nextOrder, m.grants, m.permissions);
    StartKeepsMirror(m, id, effects, hosts);
    StartKeepsOwners(m, id, effects, hosts);
  }

  lemma StartKeepsMirror(m: Model, id: Id, effects: Effects, hosts: Hosts)
    requires Mirrored(m) && id in m.extensions
    ensures Mirrored(StartedModel(m, id, effects, hosts))
  {
  }

  lemma StartKeepsOwners(m: Model, id: Id, effects: Effects, hosts: Hosts)
    requires OwnedByActive(m.extensions, m.effects, m.hosts) && id in m.extensions && OnlyOwn(m, id, effects, hosts)
    ensures OwnedByActive(WithStates(m.extensions, {id}, Active), effects, hosts)
  {
    var extensions := WithStates(m.extensions, {id}, Active);
    forall e | e in effects ensures OwnerActive(extensions, effects[e].owner) {
      if effects[e].owner.instanceId != id {
        assert e in EffectsOfOthers(effects, {id});
        assert e in EffectsOfOthers(m.effects, {id});
      }
    }
    forall target | target in hosts ensures OwnerActive(extensions, hosts[target]) {
      if hosts[target].instanceId != id {
        assert target in HostsOfOthers(hosts, {id});
        assert target in HostsOfOthers(m.hosts, {id});
      }
    }
  }

  /** An instance that is not active owns nothing, so taking its own effects away changes nothing. */
  lemma InactiveOwnsNothing(m: Model, id: Id)
    requires OwnedByActive(m.extensions, m.effects, m.hosts)
    requires id !in m.extensions || !m.extensions[id].state.Active?
    ensures EffectsOfOthers(m.effects, {id}) == m.effects && HostsOfOthers(m.hosts, {id}) == m.hosts
  {
  }

  /** A restart re-owns the instance's contributions when nobody else holds them. */
  lemma StartKeepsContributions(m: Model, id: Id, effects: Effects, hosts: Hosts)
    requires id in m.extensions && ContributionsOwned(m.extensions, m.contributions)
    requires m.extensions[id].state.Stopped? ==> KeysOf(m.extensions[id]) !! m.contributions
    ensures ContributionsOwned(StartedModel(m, id, effects, hosts).extensions, StartedModel(m, id, effects, hosts).contributions)
  {
    var n := StartedModel(m, id, effects, hosts);
    forall x, key ensures HoldsKey(n.extensions, x, key) <==>
      HoldsKey(m.extensions, x, key) || (x == id && key in KeysOf(m.extensions[id]))
    {
    }
    forall key ensures !m.extensions[id].state.Stopped? && key in KeysOf(m.extensions[id]) ==> HoldsKey(m.extensions, id, key) {
    }
    hide HoldsKey;
    forall key ensures key in n.contributions <==> exists x :: HoldsKey(n.extensions, x, key) {
      if key in KeysOf(m.extensions[id]) { assert HoldsKey(n.extensions, id, key); }
    }
  }

  // ---------- removal ----------

  /** Removing an inactive instance nobody depends on keeps the engine sound. */
  lemma RemovalKeepsSound(m: Model, id: Id)
    requires Sound(m) && id in m.extensions && !m.extensions[id].state.Active?
    requires forall x | x in m.extensions && x != id :: !DependsOn(m.extensions[x], id)
    ensures Sound(RemovedModel(m, id))
  {
    hide Coordinated, Mirrored, OwnedByActive, EdgesPointBack, GrantsRequested, PermissionsRequested, ManifestsValid, ValidGrants, DependsOn;
    RemovalKeepsCoordinated(m.extensions, m.platform, id);
    RemovalKeepsMirror(m, id);
    RemovalKeepsOwners(m.extensions, m.effects, m.hosts, id);
    RemovalKeepsEdges(m.extensions, m.order, m.nextOrder, id);
    RemovalKeepsRequests(m, id);
    assert ManifestsValid(m.extensions - {id}) by { RemovalKeepsManifests(m.extensions, id); }
  }

  lemma RemovalKeepsCoordinated(extensions: Extensions, platform: PlatformTable, id: Id)
    requires Coordinated(RegistryOf(extensions), platform)
    ensures Coordinated(RegistryOf(extensions - {id}), platform)
  {
    assert RegistryOf(extensions - {id}) == RegistryOf(extensions) - {id};
  }

  lemma RemovalKeepsMirror(m: Model, id: Id)
    requires Mirrored(m) && id in m.extensions
    ensures Mirrored(RemovedModel(m, id))
  {
  }

  lemma RemovalKeepsOwners(extensions: Extensions, effects: Effects, hosts: Hosts, id: Id)
    requires OwnedByActive(extensions, effects, hosts) && id in extensions && !extensions[id].state.Active?
    ensures OwnedByActive(extensions - {id}, effects, HostsOfOthers(hosts, {id}))
  {
  }

  lemma RemovalKeepsEdges(extensions: Extensions, order: map<Id, nat>, nextOrder: nat, id: Id)
    requires EdgesPointBack(extensions, order, nextOrder)
    requires forall x | x in extensions && x != id :: !DependsOn(extensions[x], id)
    ensures EdgesPointBack(extensions - {id}, order - {id}, nextOrder)
  {
    hide DependsOn;
  }

  lemma RemovalKeepsManifests(extensions: Extensions, id: Id)
    requires ManifestsValid(extensions)
    ensures ManifestsValid(extensions - {id})
  {
    hide ValidManifest, WellPatterned;
  }

  lemma RemovalKeepsRequests(m: Model, id: Id)
    requires GrantsRequested(m.extensions, m.grants) && ValidGrants(m.grants) && PermissionsRequested(m.extensions, m.permissions)
    ensures GrantsRequested(m.extensions - {id}, GrantsOfOthers(m.grants, id)) && ValidGrants(GrantsOfOthers(m.grants, id))
    ensures PermissionsRequested(m.extensions - {id}, PermissionsOfOthers(m.permissions, id))
  {
    hide Valid;
    forall owner: ComponentRef, pattern | owner.instanceId != id && Requested(m.extensions, owner, pattern)
      ensures Requested(m.extensions - {id}, owner, pattern)
    {
      var c, r :| HasComponent(m.extensions, owner, c) && r in c.secretRead && AllowsPattern(r, pattern);
      assert HasComponent(m.extensions - {id}, owner, c);
    }
    forall owner: ComponentRef, p | owner.instanceId != id && PermissionRequested(m.extensions, owner, p)
      ensures PermissionRequested(m.extensions - {id}, owner, p)
    {
      var c :| HasComponent(m.extensions, owner, c) && p in c.runtime;
      assert HasComponent(m.extensions - {id}, owner, c);
    }
    hide Requested, PermissionRequested;
  }

  /** Some live instance has registered a contribution id of `id` again. */
  ghost predicate ReregisteredElsewhere(m: Model, id: Id) {
    exists x, key :: x != id && HoldsKey(m.extensions, x, key) && id in m.extensions && key in KeysOf(m.extensions[id])
  }

  /** Removal takes the instance's contribution ids away unconditionally. Ownership survives exactly when no
      live instance has registered one of them again while this one was stopped. */
  lemma RemovalKeepsContributionsIff(m: Model, id: Id)
    requires ContributionsOwned(m.extensions, m.contributions) && id in m.extensions
    ensures ContributionsOwned(RemovedModel(m, id).extensions, RemovedModel(m, id).contributions) <==> !ReregisteredElsewhere(m, id)
  {
    var n := RemovedModel(m, id);
    forall x, key ensures HoldsKey(n.extensions, x, key) <==> HoldsKey(m.extensions, x, key) && x != id {
    }
    forall key ensures HoldsKey(m.extensions, id, key) ==> key in KeysOf(m.extensions[id]) {
    }
    hide HoldsKey;
    if ReregisteredElsewhere(m, id) {
      var x, key :| x != id && HoldsKey(m.extensions, x, key) && key in KeysOf(m.extensions[id]);
      assert HoldsKey(n.extensions, x, key) && key !in n.contributions;
    } else {
      forall key ensures key in n.contributions <==> exists x :: HoldsKey(n.extensions, x, key) {
      }
    }
  }

  // ---------- joining ----------

  ghost predicate MayJoin(m: Model, id: Id, e: Extension) {
    && id !in m.extensions && e.state.Registered?
    && Coordinated(RegistryOf(m.extensions)[id := e.declared], m.platform)
    && ValidManifest(e.manifest) && WellPatterned(e.manifest)
    && forall p | DependsOn(e, p) :: p in m.extensions
  }

  /** A registered instance with fitting declarations joins soundly. */
  lemma JoinKeepsSound(m: Model, id: Id, e: Extension)
    requires Sound(m) && MayJoin(m, id, e)
    ensures Sound(JoinedModel(m, id, e))
  {
    hide Coordinated, Mirrored, OwnedByActive, EdgesPointBack, GrantsRequested, PermissionsRequested, ManifestsValid, ValidGrants,
         DependsOn, ValidManifest, WellPatterned;
    assert RegistryOf(m.extensions[id := e]) == RegistryOf(m.extensions)[id := e.declared];
    JoinKeepsMirror(m, id, e);
    JoinKeepsTables(m, id, e);
    JoinKeepsEdges(m, id, e);
    JoinKeepsRequests(m, id, e);
  }

  lemma JoinKeepsMirror(m: Model, id: Id, e: Extension)
    requires Mirrored(m)
    ensures Mirrored(JoinedModel(m, id, e))
  {
  }

  lemma JoinKeepsTables(m: Model, id: Id, e: Extension)
    requires OwnedByActive(m.extensions, m.effects, m.hosts) && ManifestsValid(m.extensions) && id !in m.extensions
    requires ValidManifest(e.manifest) && WellPatterned(e.manifest)
    ensures OwnedByActive(m.extensions[id := e], m.effects, m.hosts) && ManifestsValid(m.extensions[id := e])
  {
    hide ValidManifest, WellPatterned;
  }

  lemma JoinKeepsEdges(m: Model, id: Id, e: Extension)
    requires EdgesPointBack(m.extensions, m.order, m.nextOrder) && id !in m.extensions
    requires forall p | DependsOn(e, p) :: p in m.extensions
    ensures EdgesPointBack(m.extensions[id := e], m.order[id := m.nextOrder], m.nextOrder + 1)
  {
    hide DependsOn;
  }

  lemma JoinKeepsRequests(m: Model, id: Id, e: Extension)
    requires GrantsRequested(m.extensions, m.grants) && PermissionsRequested(m.extensions, m.permissions) && id !in m.extensions
    ensures GrantsRequested(m.extensions[id := e], m.grants) && PermissionsRequested(m.extensions[id := e], m.permissions)
  {
    forall owner, c | HasComponent(m.extensions, owner, c) ensures HasComponent(m.extensions[id := e], owner, c) {
    }
    hide HasComponent;
    forall owner, pattern | Requested(m.extensions, owner, pattern) ensures Requested(m.extensions[id := e], owner, pattern) {
    }
    forall owner, p | PermissionRequested(m.extensions, owner, p) ensures PermissionRequested(m.extensions[id := e], owner, p) {
    }
  }

  lemma JoinKeepsContributions(m: Model, id: Id, e: Extension)
    requires ContributionsOwned(m.extensions, m.contributions) && id !in m.extensions && e.state.Registered?
    requires KeysOf(e) !! m.contributions
    ensures ContributionsOwned(JoinedModel(m, id, e).extensions, JoinedModel(m, id, e).contributions)
  {
    var n := JoinedModel(m, id, e);
    forall x, key ensures HoldsKey(n.extensions, x, key) <==> HoldsKey(m.extensions, x, key) || (x == id && key in KeysOf(e)) {
    }
    hide HoldsKey;
    forall key ensures key in n.contributions <==> exists x :: HoldsKey(n.extensions, x, key) {
      if key in KeysOf(e) { assert HoldsKey(n.extensions, id, key); }
    }
  }

  // ---------- host policy ----------

  function WithPreferences(m: Model, preferred: PreferenceTable): Model {
    m.(preferred := preferred, router := m.router.(preferred := preferred))
  }

  function WithPlatform(m: Model, platform: PlatformTable): Model {
    m.(platform := platform, router := m.router.(platform := platform))
  }

  lemma PreferencesKeepSound(m: Model, preferred: PreferenceTable)
    requires Sound(m) && NoEmptyPreferences(preferred)
    ensures Sound(WithPreferences(m, preferred))
  {
    hide Coordinated, OwnedByActive, EdgesPointBack, GrantsRequested, PermissionsRequested, ManifestsValid, ValidGrants;
  }

  lemma PlatformKeepsSound(m: Model, platform: PlatformTable)
    requires Sound(m) && Coordinated(RegistryOf(m.extensions), platform)
    ensures Sound(WithPlatform(m, platform))
  {
    hide Coordinated, OwnedByActive, EdgesPointBack, GrantsRequested, PermissionsRequested, ManifestsValid, ValidGrants;
  }

  lemma GrantKeepsSound(m: Model, owner: ComponentRef, pattern: Pattern)
    requires Sound(m) && Requested(m.extensions, owner, pattern) && Valid(pattern)
    ensures Sound(m.(grants := Granted(m.grants, owner, pattern)))
  {
    hide Coordinated, OwnedByActive, EdgesPointBack, PermissionsRequested, ManifestsValid, Requested, Valid;
    GrantKeepsRequests(m.extensions, m.grants, owner, pattern);
    StatesMirrorGrants(m, Granted(m.grants, owner, pattern));
  }

  lemma GrantKeepsRequests(extensions: Extensions, grants: Grants, owner: ComponentRef, pattern: Pattern)
    requires GrantsRequested(extensions, grants) && ValidGrants(grants) && Requested(extensions, owner, pattern) && Valid(pattern)
    ensures GrantsRequested(extensions, Granted(grants, owner, pattern)) && ValidGrants(Granted(grants, owner, pattern))
  {
    hide Requested, Valid;
  }

  lemma StatesMirrorGrants(m: Model, grants: Grants)
    ensures Mirrored(m) == Mirrored(m.(grants := grants))
  {
  }

  function Permitted(permissions: Permissions, owner: ComponentRef, permission: Id): Permissions {
    permissions[owner := (if owner in permissions then permissions[owner] else {}) + {permission}]
  }

  lemma PermissionKeepsSound(m: Model, owner: ComponentRef, permission: Id)
    requires Sound(m) && PermissionRequested(m.extensions, owner, permission)
    ensures Sound(m.(permissions := Permitted(m.permissions, owner, permission)))
  {
    hide Coordinated, OwnedByActive, EdgesPointBack, GrantsRequested, ManifestsValid, ValidGrants, PermissionRequested;
    assert Mirrored(m.(permissions := Permitted(m.permissions, owner, permission)));
  }

  lemma HostKeepsSound(m: Model, owner: ComponentRef, target: string)
    requires Sound(m) && OwnerActive(m.extensions, owner)
    ensures Sound(m.(hosts := m.hosts[target := owner]))
  {
    hide Coordinated, EdgesPointBack, GrantsRequested, PermissionsRequested, ManifestsValid, ValidGrants, OwnerActive;
    assert Mirrored(m.(hosts := m.hosts[target := owner]));
  }

  // ---------- secret policy over whole runs ----------

  /** Every path a component can read is covered by a request in its own manifest. */
  lemma ReadablePathIsRequested(m: Model, owner: ComponentRef, path: string)
    requires Sound(m) && ValidPath(path) && MayRead(m.grants, owner, path)
    ensures exists c, r :: HasComponent(m.extensions, owner, c) && r in c.secretRead && Matches(r, path)
  {
    hide Coordinated, Mirrored, OwnedByActive, EdgesPointBack, PermissionsRequested, Matches, AllowsPattern, Valid;
    var i :| 0 <= i < |m.grants[owner]| && Matches(m.grants[owner][i], path);
    var pattern := m.grants[owner][i];
    assert Requested(m.extensions, owner, pattern);
    var c, r :| HasComponent(m.extensions, owner, c) && r in c.secretRead && AllowsPattern(r, pattern);
    assert WellPatterned(m.extensions[owner.instanceId].manifest);
    assert Valid(r) && Valid(pattern);
    AllowsPatternIsInclusion(r, pattern);
  }

  /** An instance id that is not registered holds nothing, whatever it held before it was unregistered. */
  lemma UnregisteredHoldsNothing(m: Model, owner: ComponentRef)
    requires Sound(m) && owner.instanceId !in m.extensions
    ensures owner !in m.grants && owner !in m.permissions
    ensures forall id | id in m.effects :: m.effects[id].owner != owner
    ensures forall target | target in m.hosts :: m.hosts[target] != owner
  {
    hide Coordinated, Mirrored, EdgesPointBack, ManifestsValid;
    forall o | o in m.grants ensures o.instanceId in m.extensions {
      assert Requested(m.extensions, o, m.grants[o][0]);
    }
    forall o | o in m.permissions ensures o.instanceId in m.extensions {
      var p :| p in m.permissions[o];
      assert PermissionRequested(m.extensions, o, p);
    }
  }
}
