/** The loops engine methods share: callbacks of one instance, contribution ids, grant revocation. */
module EngineSteps {
  import opened Identifiers
  import opened SecretPatterns
  import opened SecretPolicy
  import opened DependencyGraph
  import opened Activation
  import opened Scopes
  import opened RuntimeEffects
  import opened ExecutionTargets
  import opened ServiceTables
  import opened ServiceRuntime
  import opened Callbacks
  import opened Gathering
  import opened Registration
  import opened EngineModel

  datatype EngineError =
    | InstanceNotFound(instance: Id)
    | InstanceAlreadyExists(instance: Id)
    | InvalidManifest
    | RegistrationFailed
    | DefinitionRefused(definition: DefinitionError)
    | ComponentNotFound(component: Id)
    | NotRequested
    | OwnerInactive(owner: ComponentRef)
    | TargetRefused(target: TargetError)
    | WrongScope
    | ReservationConflict(contract: ContractKey)
    | PlatformConflict(contract: ContractKey)
    | PlanRefused(reason: PlanError)
    | ContributionConflict(contribution: Id)
    | StartFailed(component: Id)
    | StartRollbackFailed(component: Id, failures: seq<Id>)
    | StopFailed(failures: seq<Id>)
    | ProviderInUse(dependents: seq<Id>)

  datatype EngineResult = Done | Err(error: EngineError)

  // ---------- callbacks ----------

  /** Runs the stop callbacks in reverse component order and collects the components that failed. */
  method StopComponents(instance: Id, components: seq<Id>, effects: RuntimeEffectRegistry, targets: ExecutionTargetRegistry)
    returns (failures: seq<Id>, ghost runs: seq<CallbackRun>)
    requires effects.Valid()
    modifies effects, targets
    ensures effects.Valid()
    ensures EffectsOutside(effects.effects, instance) == EffectsOutside(old(effects.effects), instance)
    ensures HostsOutside(targets.hosts, instance) == HostsOutside(old(targets.hosts), instance)
    ensures effects.ran == old(effects.ran) + runs && AllStopped(instance, components, runs) && FailuresOf(runs, failures)
  {
    hide EffectsOutside, HostsOutside, FailuresOf;
    failures, runs := [], [];
    NoFailures();
    for i := |components| downto 0
      invariant effects.Valid()
      invariant EffectsOutside(effects.effects, instance) == EffectsOutside(old(effects.effects), instance)
      invariant HostsOutside(targets.hosts, instance) == HostsOutside(old(targets.hosts), instance)
      invariant effects.ran == old(effects.ran) + runs && AllStopped(instance, components[i..], runs) && FailuresOf(runs, failures)
    {
      var ok := RunCallback(ComponentRef(instance, components[i]), Stopping, effects, targets);
      ghost var run := CallbackRun(ComponentRef(instance, components[i]), Stopping, ok);
      FailuresGoOn(runs, failures, run);
      OneMoreStopped(instance, components, i, runs, run);
      assert old(effects.ran) + (runs + [run]) == (old(effects.ran) + runs) + [run];
      runs := runs + [run];
      if !ok {
        failures := failures + [components[i]];
      }
    }
    assert components[0..] == components;
  }

  lemma OneMoreStopped(instance: Id, components: seq<Id>, i: nat, runs: seq<CallbackRun>, run: CallbackRun)
    requires i < |components| && AllStopped(instance, components[i + 1..], runs)
    requires run.owner == ComponentRef(instance, components[i]) && run.phase.Stopping?
    ensures AllStopped(instance, components[i..], runs + [run])
  {
    assert components[i..] == [components[i]] + components[i + 1..];
  }

  /** Stops the components and revokes whatever the instance still holds. */
  method StopAndRevoke(instance: Id, components: seq<Id>, effects: RuntimeEffectRegistry, targets: ExecutionTargetRegistry)
    returns (failures: seq<Id>, ghost runs: seq<CallbackRun>)
    requires effects.Valid()
    modifies effects, targets
    ensures effects.Valid()
    ensures effects.effects == EffectsOutside(old(effects.effects), instance) && targets.hosts == HostsOutside(old(targets.hosts), instance)
    ensures effects.ran == old(effects.ran) + runs && AllStopped(instance, components, runs) && FailuresOf(runs, failures)
  {
    hide EffectsOutside, HostsOutside, FailuresOf, AllStopped;
    failures, runs := StopComponents(instance, components, effects, targets);
    effects.RevokeInstance(instance);
    targets.RevokeInstance(instance);
  }

  /** Either every component started, in order, or the `k`-th is the first that failed to: then it and the earlier ones
      were stopped in reverse, and the error lists exactly the stops that failed. */
  ghost predicate StartRan(instance: Id, components: seq<Id>, error: Option<EngineError>, runs: seq<CallbackRun>) {
    match error
    case None => AllStarted(instance, components, |components|, runs)
    case Some(e) => exists k: nat :: FailedAt(instance, components, e, runs, k)
  }

  ghost predicate FailedAt(instance: Id, components: seq<Id>, e: EngineError, runs: seq<CallbackRun>, k: nat) {
    && k < |components| && k < |runs| && AllStarted(instance, components, k, runs[..k])
    && runs[k] == CallbackRun(ComponentRef(instance, components[k]), Starting, false)
    && AllStopped(instance, components[..k + 1], runs[k + 1..])
    && match e
       case StartFailed(component) => component == components[k] && FailuresOf(runs[k + 1..], [])
       case StartRollbackFailed(component, failures) => component == components[k] && failures != [] && FailuresOf(runs[k + 1..], failures)
       case _ => false
  }

  /** Runs the start callbacks in component order. When one fails, it and the earlier ones are stopped in
      reverse and everything the instance registered is revoked. */
  method StartComponents(instance: Id, components: seq<Id>, effects: RuntimeEffectRegistry, targets: ExecutionTargetRegistry)
    returns (error: Option<EngineError>, ghost runs: seq<CallbackRun>)
    requires effects.Valid()
    modifies effects, targets
    ensures effects.Valid()
    ensures error.None? ==> EffectsOutside(effects.effects, instance) == EffectsOutside(old(effects.effects), instance)
    ensures error.None? ==> HostsOutside(targets.hosts, instance) == HostsOutside(old(targets.hosts), instance)
    ensures error.Some? ==> effects.effects == EffectsOutside(old(effects.effects), instance)
    ensures error.Some? ==> targets.hosts == HostsOutside(old(targets.hosts), instance)
    ensures error.Some? ==> (error.value.StartFailed? || error.value.StartRollbackFailed?) && error.value.component in components
    ensures effects.ran == old(effects.ran) + runs && StartRan(instance, components, error, runs)
  {
    hide EffectsOutside, HostsOutside, FailuresOf, StartRan, AllStopped;
    runs := [];
    for i := 0 to |components|
      invariant effects.Valid()
      invariant EffectsOutside(effects.effects, instance) == EffectsOutside(old(effects.effects), instance)
      invariant HostsOutside(targets.hosts, instance) == HostsOutside(old(targets.hosts), instance)
      invariant effects.ran == old(effects.ran) + runs && AllStarted(instance, components, i, runs)
    {
      var ok := RunCallback(ComponentRef(instance, components[i]), Starting, effects, targets);
      ghost var run := CallbackRun(ComponentRef(instance, components[i]), Starting, ok);
      assert old(effects.ran) + (runs + [run]) == (old(effects.ran) + runs) + [run];
      if !ok {
        var failures, stops := StopAndRevoke(instance, components[..i + 1], effects, targets);
        error := Some(if failures == [] then StartFailed(components[i]) else StartRollbackFailed(components[i], failures));
        StartFailsAt(instance, components, error.value, runs, run, stops, failures);
        assert old(effects.ran) + (runs + [run] + stops) == (old(effects.ran) + (runs + [run])) + stops;
        runs := runs + [run] + stops;
        return;
      }
      runs := runs + [run];
    }
    EveryoneStarted(instance, components, runs);
    return None, runs;
  }

  lemma EveryoneStarted(instance: Id, components: seq<Id>, runs: seq<CallbackRun>)
    requires AllStarted(instance, components, |components|, runs)
    ensures StartRan(instance, components, None, runs)
  {
  }

  lemma StartFailsAt(instance: Id, components: seq<Id>, e: EngineError, runs: seq<CallbackRun>, run: CallbackRun, stops: seq<CallbackRun>, failures: seq<Id>)
    requires var k := |runs|;
      && k < |components| && AllStarted(instance, components, k, runs) && run == CallbackRun(ComponentRef(instance, components[k]), Starting, false)
      && AllStopped(instance, components[..k + 1], stops) && FailuresOf(stops, failures)
      && e == if failures == [] then StartFailed(components[k]) else StartRollbackFailed(components[k], failures)
    ensures StartRan(instance, components, Some(e), runs + [run] + stops)
  {
    hide AllStarted, AllStopped, FailuresOf;
    var all := runs + [run] + stops;
    assert all[..|runs|] == runs && all[|runs|] == run && all[|runs| + 1..] == stops;
    assert FailedAt(instance, components, e, all, |runs|);
  }

  // ---------- what the engine's calls run ----------

  /** A start runs the start callbacks unless it is refused before or has nothing to do. */
  ghost predicate StartTraced(extensions: Extensions, id: Id, r: EngineResult, before: seq<CallbackRun>, after: seq<CallbackRun>) {
    && before <= after
    && var runs := after[|before|..];
       if id !in extensions || extensions[id].state.Active? then runs == []
       else match r
         case Done => StartRan(id, extensions[id].components, None, runs)
         case Err(e) => if e.StartFailed? || e.StartRollbackFailed? then StartRan(id, extensions[id].components, Some(e), runs) else runs == []
  }

  /** Every stop callback ran, and the answer lists exactly those that failed. */
  ghost predicate StopRan(id: Id, components: seq<Id>, r: EngineResult, runs: seq<CallbackRun>) {
    && AllStopped(id, components, runs)
    && match r
       case Done => FailuresOf(runs, [])
       case Err(e) => e.StopFailed? && e.failures != [] && FailuresOf(runs, e.failures)
  }

  /** A stop runs the stop callbacks unless the provider guard refuses it or there is nothing to stop. */
  ghost predicate StopTraced(extensions: Extensions, id: Id, r: EngineResult, before: seq<CallbackRun>, after: seq<CallbackRun>) {
    && before <= after
    && var runs := after[|before|..];
       if id !in extensions || extensions[id].state.Stopped? || (r.Err? && r.error.ProviderInUse?) then runs == []
       else StopRan(id, extensions[id].components, r, runs)
  }

  /** Unregistering runs the stop callbacks of an active instance only. */
  ghost predicate UnregisterTraced(extensions: Extensions, id: Id, r: EngineResult, before: seq<CallbackRun>, after: seq<CallbackRun>) {
    if id in extensions && extensions[id].state.Active? then StopTraced(extensions, id, r, before, after) else after == before
  }

  lemma StartRefused(extensions: Extensions, id: Id, r: EngineResult, ran: seq<CallbackRun>)
    requires if id !in extensions || extensions[id].state.Active? then true else r.Err? && !r.error.StartFailed? && !r.error.StartRollbackFailed?
    ensures StartTraced(extensions, id, r, ran, ran)
  {
  }

  lemma StartIsTraced(extensions: Extensions, id: Id, error: Option<EngineError>, ran: seq<CallbackRun>, runs: seq<CallbackRun>)
    requires id in extensions && !extensions[id].state.Active? && StartRan(id, extensions[id].components, error, runs)
    ensures StartTraced(extensions, id, if error.None? then Done else Err(error.value), ran, ran + runs)
  {
    assert (ran + runs)[|ran|..] == runs;
  }

  lemma StopIsTraced(extensions: Extensions, id: Id, failures: seq<Id>, ran: seq<CallbackRun>, runs: seq<CallbackRun>)
    requires id in extensions && !extensions[id].state.Stopped?
    requires AllStopped(id, extensions[id].components, runs) && FailuresOf(runs, failures)
    ensures StopTraced(extensions, id, if failures == [] then Done else Err(StopFailed(failures)), ran, ran + runs)
  {
    hide AllStopped, FailuresOf;
    assert (ran + runs)[|ran|..] == runs;
  }

  lemma FailuresAreComponents(id: Id, components: seq<Id>, runs: seq<CallbackRun>, failures: seq<Id>)
    requires AllStopped(id, components, runs) && FailuresOf(runs, failures)
    ensures Elements(failures) <= Elements(components)
  {
    hide FailuresOf;
    NoneFailedIff(runs, failures);
    forall c | c in failures ensures c in components {
      var i :| 0 <= i < |runs| && !runs[i].ok && runs[i].owner.componentId == c;
    }
  }

  lemma OutsideIsOfOthers(effects: Effects, hosts: Hosts, id: Id)
    ensures EffectsOutside(effects, id) == EffectsOfOthers(effects, {id})
    ensures HostsOutside(hosts, id) == HostsOfOthers(hosts, {id})
  {
  }

  // ---------- contribution ids ----------

  /** The first of the ids that is taken in the scope. */
  ghost predicate FirstTaken(scope: Id, ids: seq<Id>, taken: Contributions, id: Id) {
    exists k: nat :: k < |ids| && ids[k] == id && (scope, id) in taken && forall j | 0 <= j < k :: (scope, ids[j]) !in taken
  }

  method FindConflict(scope: Id, ids: seq<Id>, taken: Contributions) returns (clash: Option<Id>)
    ensures clash.None? <==> forall c | c in ids :: (scope, c) !in taken
    ensures clash.Some? ==> FirstTaken(scope, ids, taken, clash.value)
  {
    for i := 0 to |ids|
      invariant forall j | 0 <= j < i :: (scope, ids[j]) !in taken
    {
      if (scope, ids[i]) in taken {
        return Some(ids[i]);
      }
    }
    return None;
  }

  method InsertContributions(e: Extension, taken: Contributions) returns (r: Contributions)
    ensures r == taken + KeysOf(e)
  {
    r := taken;
    for i := 0 to |e.contributions|
      invariant forall key :: key in r <==> key in taken || (key.0 == e.declared.scopeId && key.1 in e.contributions[..i])
    {
      assert e.contributions[..i + 1] == e.contributions[..i] + [e.contributions[i]];
      r := r + {(e.declared.scopeId, e.contributions[i])};
    }
    assert e.contributions[..|e.contributions|] == e.contributions;
  }

  method RemoveContributions(e: Extension, taken: Contributions) returns (r: Contributions)
    ensures r == taken - KeysOf(e)
  {
    r := taken;
    for i := 0 to |e.contributions|
      invariant forall key :: key in r <==> key in taken && !(key.0 == e.declared.scopeId && key.1 in e.contributions[..i])
    {
      assert e.contributions[..i + 1] == e.contributions[..i] + [e.contributions[i]];
      r := r - {(e.declared.scopeId, e.contributions[i])};
    }
    assert e.contributions[..|e.contributions|] == e.contributions;
  }

  /** A restart claims the ids again; a first start holds them since registration. */
  function Claimed(e: Extension, taken: Contributions): Contributions {
    if e.state.Stopped? then taken + KeysOf(e) else taken
  }

  function Unclaimed(e: Extension, taken: Contributions): Contributions {
    if e.state.Stopped? then taken - KeysOf(e) else taken
  }

  predicate Claimable(e: Extension, taken: Contributions) {
    e.state.Stopped? ==> KeysOf(e) !! taken
  }

  method ClaimContributions(e: Extension, taken: Contributions) returns (clash: Option<Id>, claimed: Contributions)
    ensures clash.None? ==> claimed == Claimed(e, taken) && Claimable(e, taken)
    ensures clash.Some? ==> e.state.Stopped? && FirstTaken(e.declared.scopeId, e.contributions, taken, clash.value)
  {
    if !e.state.Stopped? {
      return None, taken;
    }
    clash := FindConflict(e.declared.scopeId, e.contributions, taken);
    claimed := taken;
    if clash.None? {
      claimed := InsertContributions(e, taken);
    }
  }

  method ReleaseContributions(e: Extension, taken: Contributions) returns (r: Contributions)
    ensures r == Unclaimed(e, taken)
  {
    r := taken;
    if e.state.Stopped? {
      r := RemoveContributions(e, taken);
    }
  }

  // ---------- one instance's state ----------

  lemma OneState(extensions: Extensions, id: Id, state: State)
    requires id in extensions
    ensures extensions[id := extensions[id].(state := state)] == WithStates(extensions, {id}, state)
  {
  }

  lemma OneActivity(router: Tables, id: Id, active: bool)
    requires id in router.instances
    ensures router.(instances := router.instances[id := router.instances[id].(active := active)]) == WithActivity(router, {id}, active)
  {
    assert router.instances[id := router.instances[id].(active := active)] == WithActivity(router, {id}, active).instances;
  }

  lemma SameActivity(router: Tables, id: Id, active: bool)
    requires id in router.instances && router.instances[id].active == active
    ensures router.instances[id := router.instances[id].(active := active)] == router.instances
  {
  }

  lemma OneInstanceKeys(extensions: Extensions, id: Id)
    requires id in extensions
    ensures KeysOfAll(extensions, {id}) == KeysOf(extensions[id])
  {
  }

  lemma MirrorShows(m: Model, id: Id)
    requires Sound(m) && id in m.extensions
    ensures id in m.router.instances && m.router.instances[id] == RouterEntry(m.extensions[id])
    ensures m.router.platform == m.platform && m.router.preferred == m.preferred
  {
    hide Coordinated, OwnedByActive, EdgesPointBack, GrantsRequested, PermissionsRequested, ManifestsValid, ValidGrants;
  }

  lemma MirrorDeclares(m: Model)
    requires Sound(m)
    ensures m.router.instances.Keys == m.extensions.Keys && Declared(m.router) == RegistryOf(m.extensions)
    ensures ServiceTables.ActiveIn(m.router) == ActiveOf(m.extensions)
    ensures m.router.platform == m.platform && m.router.preferred == m.preferred
    ensures Coordinated(RegistryOf(m.extensions), m.platform)
  {
    hide Coordinated, OwnedByActive, EdgesPointBack, GrantsRequested, PermissionsRequested, ManifestsValid, ValidGrants;
  }

  // ---------- execution-target dependents ----------

  function IdKey(id: Id): SortKey {
    SortKey(id, "", "")
  }

  ghost function DependentsOf(extensions: Extensions, provider: Id): (s: set<Id>)
    ensures forall x :: x in s <==> x in extensions && x != provider && DependsOn(extensions[x], provider)
  {
    set x | x in extensions && x != provider && DependsOn(extensions[x], provider)
  }

  /** `execution_target_dependents_of`: the dependents of a provider in identifier order. */
  method TargetDependents(extensions: Extensions, provider: Id) returns (dependents: seq<Id>)
    ensures StrictlySorted(dependents, IdKey) && Elements(dependents) == DependentsOf(extensions, provider)
  {
    hide DependsOn, StrictlySorted, SortedByKey;
    var ids := Enumerate(extensions.Keys);
    dependents := [];
    for i := 0 to |ids|
      invariant forall x :: x in dependents <==> x in ids[..i] && x != provider && x in extensions && DependsOn(extensions[x], provider)
      invariant Distinct(dependents)
    {
      assert ids[i] in Elements(ids);
      assert ids[..i + 1] == ids[..i] + [ids[i]];
      if ids[i] != provider && DependsOn(extensions[ids[i]], provider) {
        dependents := dependents + [ids[i]];
      }
    }
    assert ids[..|ids|] == ids;
    assert forall x :: x in ids <==> x in Elements(ids);
    assert DistinctKeys(dependents, IdKey);
    assert Elements(dependents) == DependentsOf(extensions, provider);
    dependents := SortByKey(dependents, IdKey);
  }

  // ---------- grants and permissions of a removed instance ----------

  /** Revokes the secret grants of the named components, one by one. */
  method RevokeSecrets(secrets: SecretManager, instance: Id, components: seq<Id>, ghost changes: nat) returns (ghost now: nat)
    modifies secrets
    ensures secrets.readGrants == map owner | owner in old(secrets.readGrants)
                                             && !(owner.instanceId == instance && owner.componentId in components) :: old(secrets.readGrants)[owner]
    ensures now >= changes
    ensures old(secrets.policyRevision) == changes && now < U64_SIZE ==> secrets.policyRevision == now
    ensures now == changes ==> secrets.readGrants == old(secrets.readGrants) && secrets.policyRevision == old(secrets.policyRevision)
  {
    now := changes;
    for i := 0 to |components|
      invariant secrets.readGrants == map owner | owner in old(secrets.readGrants)
                                             && !(owner.instanceId == instance && owner.componentId in components[..i]) :: old(secrets.readGrants)[owner]
      invariant now >= changes
      invariant old(secrets.policyRevision) == changes && now < U64_SIZE ==> secrets.policyRevision == now
      invariant now == changes ==> secrets.readGrants == old(secrets.readGrants) && secrets.policyRevision == old(secrets.policyRevision)
    {
      assert components[..i + 1] == components[..i] + [components[i]];
      ghost var before := secrets.readGrants;
      secrets.RevokeComponent(ComponentRef(instance, components[i]));
      if secrets.readGrants != before {
        now := now + 1;
      }
    }
    assert components[..|components|] == components;
  }

  function ComponentIdsOf(m: Manifest): (ids: seq<Id>)
    ensures |ids| == |m.components| && forall i | 0 <= i < |ids| :: ids[i] == m.components[i].id
  {
    seq(|m.components|, i requires 0 <= i < |m.components| => m.components[i].id)
  }

  /** Only components of the manifest hold grants, so revoking theirs leaves the instance none. */
  lemma NoGrantsLeft(m: Model, id: Id, grants: Grants, more: seq<Id>)
    requires Sound(m) && id in m.extensions
    requires grants == map owner | owner in m.grants
                         && !(owner.instanceId == id && owner.componentId in ComponentIdsOf(m.extensions[id].manifest)) :: m.grants[owner]
    ensures GrantsOfOthers(m.grants, id) == grants
    ensures grants == map owner | owner in grants && !(owner.instanceId == id && owner.componentId in more) :: grants[owner]
  {
    hide Coordinated, OwnedByActive, EdgesPointBack, Mirrored, PermissionsRequested, ManifestsValid, AllowsPattern;
    forall owner: ComponentRef | owner in m.grants && owner.instanceId == id
      ensures owner.componentId in ComponentIdsOf(m.extensions[id].manifest)
    {
      var pattern := m.grants[owner][0];
      assert Requested(m.extensions, owner, pattern);
      var c :| HasComponent(m.extensions, owner, c);
      ManifestLists(m.extensions[id].manifest, c);
    }
  }

  lemma ManifestLists(manifest: Manifest, c: ComponentDescriptor)
    requires c in manifest.components
    ensures c.id in ComponentIdsOf(manifest)
  {
    var i :| 0 <= i < |manifest.components| && manifest.components[i] == c;
    assert ComponentIdsOf(manifest)[i] == c.id;
  }

  /** Removes the runtime permissions of the named components. */
  method RevokePermissions(permissions: Permissions, instance: Id, components: seq<Id>) returns (r: Permissions)
    ensures r == map owner | owner in permissions && !(owner.instanceId == instance && owner.componentId in components) :: permissions[owner]
  {
    r := permissions;
    for i := 0 to |components|
      invariant r == map owner | owner in permissions && !(owner.instanceId == instance && owner.componentId in components[..i]) :: permissions[owner]
    {
      assert components[..i + 1] == components[..i] + [components[i]];
      r := r - {ComponentRef(instance, components[i])};
    }
    assert components[..|components|] == components;
  }

  lemma NoPermissionsLeft(m: Model, id: Id, permissions: Permissions)
    requires Sound(m) && id in m.extensions
    requires permissions == map owner | owner in m.permissions
               && !(owner.instanceId == id && owner.componentId in ComponentIdsOf(m.extensions[id].manifest)) :: m.permissions[owner]
    ensures PermissionsOfOthers(m.permissions, id) == permissions
  {
    hide Coordinated, OwnedByActive, EdgesPointBack, Mirrored, GrantsRequested, ManifestsValid;
    forall owner: ComponentRef | owner in m.permissions && owner.instanceId == id
      ensures owner.componentId in ComponentIdsOf(m.extensions[id].manifest)
    {
      var p :| p in m.permissions[owner];
      assert PermissionRequested(m.extensions, owner, p);
      var c :| HasComponent(m.extensions, owner, c);
      ManifestLists(m.extensions[id].manifest, c);
    }
  }

  /** The first component of the manifest with the given id. */
  method FindComponent(manifest: Manifest, component: Id) returns (found: Option<ComponentDescriptor>)
    requires ValidManifest(manifest)
    ensures found.None? <==> forall c | c in manifest.components :: c.id != component
    ensures found.Some? ==> found.value in manifest.components && found.value.id == component
    ensures found.Some? ==> forall c | c in manifest.components && c.id == component :: c == found.value
  {
    for i := 0 to |manifest.components|
      invariant forall j | 0 <= j < i :: manifest.components[j].id != component
    {
      if manifest.components[i].id == component {
        return Some(manifest.components[i]);
      }
    }
    return None;
  }
}
