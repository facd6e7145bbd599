/** The extension engine: registration, lifecycle, quarantine, grants, host policy, and routing. */
module Engine {
  import opened Identifiers
  import opened SecretPatterns
  import opened SecretPolicy
  import opened Composition
  import opened DependencyGraph
  import opened Activation
  import opened Scopes
  import opened Planning
  import opened Planner
  import opened RuntimeEffects
  import opened ExecutionTargets
  import opened Callbacks
  import opened Gathering
  import opened Registration
  import opened ServiceTables
  import opened ServiceRuntime
  import opened EngineModel
  import opened EngineSteps
  import opened Quarantine

  class ExtensionEngine {
    const secrets: SecretManager
    const effects: RuntimeEffectRegistry
    const targets: ExecutionTargetRegistry
    const services: ServiceRuntime
    var extensions: Extensions
    var contributions: Contributions
    var permissions: Permissions
    var preferred: PreferenceTable
    var platform: PlatformTable
    ghost var order: map<Id, nat>
    ghost var nextOrder: nat
    ghost var policyChanges: nat
    ghost var stopLog: seq<Id>

    ghost function Abs(): Model
      reads this, secrets, effects, targets, services
    {
      Model(extensions, contributions, effects.effects, targets.hosts, secrets.readGrants, permissions,
                  preferred, platform, services.Topology(), order, nextOrder)
    }

    /** The engine is sound; as long as its own policy changes fit 64 bits, its route cache is current. */
    ghost predicate Valid()
      reads this, secrets, effects, targets, services
    {
      && services.secrets == secrets && Sound(Abs())
      && effects.Valid() && services.Valid() && PolicyTracked()
    }

    ghost predicate PolicyTracked()
      requires services.secrets == secrets
      reads this`policyChanges, secrets, services
    {
      policyChanges < U64_SIZE ==> secrets.policyRevision == policyChanges && services.CacheCurrent()
    }

    ghost predicate Owned()
      reads this`extensions, this`contributions
    {
      ContributionsOwned(extensions, contributions)
    }

    constructor ()
      ensures Valid() && Owned() && extensions == map[] && fresh(secrets) && fresh(effects) && fresh(targets) && fresh(services)
    {
      var manager := new SecretManager();
      secrets := manager;
      effects := new RuntimeEffectRegistry();
      targets := new ExecutionTargetRegistry();
      services := new ServiceRuntime(manager);
      extensions, contributions, permissions, preferred, platform := map[], {}, map[], map[], map[];
      order, nextOrder, policyChanges, stopLog := map[], 0, 0, [];
      new;
      hide Sound, ContributionsOwned;
      EmptyIsSound(Abs());
    }

    // ---------- planning ----------

    /** `plan_extension_activation` over the current view. */
    method PlanActivation(batch: seq<Id>) returns (r: BatchResult)
      requires Valid()
      ensures r.UnknownInstance? ==> r.instance in batch && r.instance !in extensions
      ensures r.Plan? ==> Known(ViewOf(Abs()), batch) && IsPlan(ViewOf(Abs()), batch, r.result)
    {
      hide Sound, IsPlan;
      MirrorDeclares(Abs());
      var view := View(RegistryOf(extensions), platform, preferred, secrets.readGrants, ActiveOf(extensions));
      assert view == ViewOf(Abs());
      r := PlanBatch(view, batch, secrets);
    }

    // ---------- start ----------

    /** Starts one instance. Every failure leaves the engine exactly as it was. */
    method Start(id: Id) returns (r: EngineResult)
      requires Valid()
      modifies this`extensions, this`contributions, effects, targets, services
      ensures Valid() && (old(Owned()) ==> Owned())
      ensures Starts(old(Abs()), id, r, Abs())
      ensures StartTraced(old(extensions), id, r, old(effects.ran), effects.ran)
    {
      hide StartTraced, Sound, IsPlan, StartedModel, LaunchedModel, OnlyOwn, ContributionsOwned, PolicyTracked, ServiceRuntime.Valid, RuntimeEffectRegistry.Valid;
      if id !in extensions {
        StartRefused(extensions, id, Err(InstanceNotFound(id)), effects.ran);
        return Err(InstanceNotFound(id));
      }
      if extensions[id].state.Active? {
        StartRefused(extensions, id, Done, effects.ran);
        return Done;
      }
      var plan := PlanActivation([id]);
      if plan.result.Refused? {
        StartRefused(extensions, id, Err(PlanRefused(plan.result.error)), effects.ran);
        return Err(PlanRefused(plan.result.error));
      }
      PlannedAlone(Abs(), id, plan.result);
      r := StartPlanned(id);
    }

    /** The part of a start after planning: claim the contribution ids, then launch. */
    method StartPlanned(id: Id) returns (r: EngineResult)
      requires Valid() && CanStart(Abs(), id)
      modifies this`extensions, this`contributions, effects, targets, services
      ensures Valid() && (old(Owned()) ==> Owned())
      ensures Starts(old(Abs()), id, r, Abs())
      ensures StartTraced(old(extensions), id, r, old(effects.ran), effects.ran)
    {
      hide StartTraced, Sound, IsPlan, StartedModel, LaunchedModel, OnlyOwn, ContributionsOwned, PolicyTracked, ServiceRuntime.Valid, RuntimeEffectRegistry.Valid, Starts, KeysOf, Claimed, Unclaimed, Claimable;
      ghost var m := Abs();
      var e := extensions[id];
      var clash, claimed := ClaimContributions(e, contributions);
      if clash.Some? {
        RestartClashes(m, id, clash.value);
        StartRefused(extensions, id, Err(ContributionConflict(clash.value)), effects.ran);
        return Err(ContributionConflict(clash.value));
      }
      r := LaunchClaimed(id, claimed);
    }

    /** Launches with the contribution ids claimed, and releases them again when that fails. */
    method LaunchClaimed(id: Id, claimed: Contributions) returns (r: EngineResult)
      requires Valid() && CanStart(Abs(), id)
      requires Claimable(extensions[id], contributions) && claimed == Claimed(extensions[id], contributions)
      modifies this`extensions, this`contributions, effects, targets, services
      ensures Valid() && (old(Owned()) ==> Owned())
      ensures Starts(old(Abs()), id, r, Abs())
      ensures StartTraced(old(extensions), id, r, old(effects.ran), effects.ran)
    {
      hide StartTraced, Sound, IsPlan, StartedModel, LaunchedModel, OnlyOwn, ContributionsOwned, PolicyTracked, ServiceRuntime.Valid, RuntimeEffectRegistry.Valid, Starts, KeysOf, Claimed, Unclaimed, Claimable;
      ghost var m := Abs();
      var e := extensions[id];
      contributions := claimed;
      OtherContributions(m, claimed);
      r := Launch(id);
      if r.Err? {
        contributions := ReleaseContributions(e, contributions);
        LaunchFailed(m, id, contributions, r);
        return;
      }
      LaunchSucceeded(m, id, claimed, effects.effects, targets.hosts);
    }

    /** Runs the start callbacks and makes the instance active, or undoes what they did. */
    method Launch(id: Id) returns (r: EngineResult)
      requires Valid() && id in extensions && !extensions[id].state.Active?
      modifies this`extensions, effects, targets, services
      ensures Valid()
      ensures match r
        case Done => OnlyOwn(old(Abs()), id, effects.effects, targets.hosts)
                     && Abs() == LaunchedModel(old(Abs()), id, effects.effects, targets.hosts)
        case Err(error) => Abs() == old(Abs()) && (error.StartFailed? || error.StartRollbackFailed?)
                           && error.component in old(extensions)[id].components
      ensures StartTraced(old(extensions), id, r, old(effects.ran), effects.ran)
    {
      hide StartTraced, StartRan, Sound, OnlyOwn, EffectsOutside, HostsOutside, WithStates, WithActivity, ServiceRuntime.Valid, ServiceRuntime.CacheCurrent,
           RuntimeEffectRegistry.Valid;
      ghost var before := Abs();
      MirrorShows(before, id);
      var error, runs := StartComponents(id, extensions[id].components, effects, targets);
      StartIsTraced(before.extensions, id, error, old(effects.ran), runs);
      var _ := services.SetActive(id, error.None?);
      if error.Some? {
        RestoredByRevoking(before, id);
        return Err(error.value);
      }
      extensions := extensions[id := extensions[id].(state := Active)];
      LaunchedIsSound(before, id, effects.effects, targets.hosts);
      return Done;
    }

    // ---------- stop ----------

    /** Stops one instance through the public guard: a provider of execution targets others were built on stays. */
    method Stop(id: Id) returns (r: EngineResult)
      requires Valid()
      modifies this`extensions, this`contributions, this`stopLog, effects, targets, services
      ensures Valid() && (old(Owned()) ==> Owned())
      ensures Stops(old(Abs()), id, true, r, Abs())
      ensures StopTraced(old(extensions), id, r, old(effects.ran), effects.ran)
      ensures stopLog == old(stopLog) + StopEntry(old(extensions), id, extensions)
    {
      r := StopInner(id, true);
    }

    method StopInner(id: Id, enforceGuard: bool) returns (r: EngineResult)
      requires Valid()
      modifies this`extensions, this`contributions, this`stopLog, effects, targets, services
      ensures Valid() && (old(Owned()) ==> Owned())
      ensures Stops(old(Abs()), id, enforceGuard, r, Abs())
      ensures StopTraced(old(extensions), id, r, old(effects.ran), effects.ran)
      ensures stopLog == old(stopLog) + StopEntry(old(extensions), id, extensions)
    {
      hide StopRan, Sound, StoppedAll, ContributionsOwned, PolicyTracked, ServiceRuntime.Valid, RuntimeEffectRegistry.Valid;
      if id !in extensions {
        return Err(InstanceNotFound(id));
      }
      if extensions[id].state.Stopped? {
        return Done;
      }
      if enforceGuard {
        var dependents := TargetDependents(extensions, id);
        if dependents != [] {
          assert dependents[0] in Elements(dependents);
          return Err(ProviderInUse(dependents));
        }
        assert Elements(dependents) == {};
      }
      HaltStops(Abs(), id);
      var failures := Halt(id);
      return if failures == [] then Done else Err(StopFailed(failures));
    }

    /** Runs the stop callbacks and takes everything the instance holds away, whatever they answer. */
    method Halt(id: Id) returns (failures: seq<Id>)
      requires Valid() && id in extensions && !extensions[id].state.Stopped?
      modifies this`extensions, this`contributions, this`stopLog, effects, targets, services
      ensures Valid() && (old(Owned()) ==> Owned())
      ensures Abs() == StoppedAll(old(Abs()), {id})
      ensures StopTraced(old(extensions), id, if failures == [] then Done else Err(StopFailed(failures)), old(effects.ran), effects.ran)
      ensures Elements(failures) <= Elements(old(extensions)[id].components)
      ensures stopLog == old(stopLog) + [id]
    {
      hide StopTraced, AllStopped, FailuresOf, Sound, StoppedAll, EffectsOutside, HostsOutside, KeysOf, WithStates, WithActivity, ContributionsOwned,
           ServiceRuntime.Valid, ServiceRuntime.CacheCurrent, RuntimeEffectRegistry.Valid;
      ghost var before := Abs();
      MirrorShows(before, id);
      var e := extensions[id];
      var _ := services.SetActive(id, false);
      ghost var runs;
      failures, runs := StopAndRevoke(id, e.components, effects, targets);
      StopIsTraced(before.extensions, id, failures, old(effects.ran), runs);
      FailuresAreComponents(id, e.components, runs, failures);
      contributions := RemoveContributions(e, contributions);
      extensions := extensions[id := e.(state := Stopped)];
      stopLog := stopLog + [id];
      HaltIsStop(before, id, effects.effects, targets.hosts);
    }

    // ---------- unregistration ----------

    /** Unregisters one instance, stopping it first when it is active; a failing stop callback leaves it
        stopped but registered. */
    method Unregister(id: Id) returns (r: EngineResult)
      requires Valid()
      modifies this`extensions, this`contributions, this`permissions, this`order, this`policyChanges, this`stopLog,
               secrets, effects, targets, services
      ensures Valid()
      ensures UnregisterTraced(old(extensions), id, r, old(effects.ran), effects.ran)
      ensures Unregisters(old(Abs()), id, r, Abs())
      ensures old(Owned()) ==> (Owned() <==> r.Err? || !ReregisteredElsewhere(old(Abs()), id))
    {
      hide StopRan, Sound, StoppedAll, RemovedModel, ContributionsOwned, ReregisteredElsewhere, PolicyTracked, ServiceRuntime.Valid, RuntimeEffectRegistry.Valid;
      ghost var m := Abs();
      var dependents := TargetDependents(extensions, id);
      if dependents != [] {
        assert dependents[0] in Elements(dependents);
        return Err(ProviderInUse(dependents));
      }
      assert Elements(dependents) == {};
      if id !in extensions {
        return Err(InstanceNotFound(id));
      }
      if extensions[id].state.Active? {
        var stopped := Stop(id);
        if stopped.Err? {
          return stopped;
        }
      }
      StoppedForRemoval(m, id);
      Drop(id);
      return Done;
    }

    /** Removes an inactive instance with its contribution ids, grants, permissions and targets. */
    method Drop(id: Id)
      requires Valid() && Removable(Abs(), id)
      modifies this`extensions, this`contributions, this`permissions, this`order, this`policyChanges, secrets, targets, services
      ensures Valid()
      ensures Abs() == RemovedModel(old(Abs()), id)
      ensures old(Owned()) ==> (Owned() <==> !ReregisteredElsewhere(old(Abs()), id))
    {
      hide Sound, HostsOutside, KeysOf, ContributionsOwned, ReregisteredElsewhere, Removable, ServiceRuntime.Valid, ServiceRuntime.CacheCurrent,
           RuntimeEffectRegistry.Valid;
      assert id in extensions by { RemovableIsRegistered(Abs(), id); }
      ghost var m := Abs();
      var e := extensions[id];
      extensions := extensions - {id};
      order := order - {id};
      contributions := RemoveContributions(e, contributions);
      ForgetPolicy(id, e, m);
      services.UnregisterInstance(id);
      targets.RevokeInstance(id);
      DropIsRemoval(m, id);
    }

    /** Revokes every grant and permission of a removed instance's components. */
    method ForgetPolicy(id: Id, e: Extension, ghost m: Model)
      requires services.secrets == secrets && PolicyTracked()
      requires Sound(m) && id in m.extensions && m.extensions[id] == e && m.grants == secrets.readGrants && m.permissions == permissions
      modifies this`permissions, this`policyChanges, secrets
      ensures PolicyTracked()
      ensures secrets.readGrants == GrantsOfOthers(m.grants, id) && permissions == PermissionsOfOthers(m.permissions, id)
    {
      hide Sound, PolicyTracked, GrantsOfOthers, PermissionsOfOthers;
      RevokeGrants(id, ComponentIdsOf(e.manifest));
      NoGrantsLeft(m, id, secrets.readGrants, e.components);
      RevokeGrants(id, e.components);
      permissions := RevokePermissions(permissions, id, ComponentIdsOf(e.manifest));
      NoPermissionsLeft(m, id, permissions);
    }

    /** Revokes secret grants component by component, keeping the route cache current. */
    method RevokeGrants(id: Id, components: seq<Id>)
      requires services.secrets == secrets && PolicyTracked()
      modifies this`policyChanges, secrets
      ensures PolicyTracked()
      ensures secrets.readGrants == map owner | owner in old(secrets.readGrants)
                                      && !(owner.instanceId == id && owner.componentId in components) :: old(secrets.readGrants)[owner]
    {
      hide RouteOf;
      policyChanges := RevokeSecrets(secrets, id, components, policyChanges);
    }

    // ---------- quarantine ----------

    /** Contains a failed active instance: exactly the instances it reaches through active dependents stop,
        each dependent before its provider. */
    method QuarantineInstance(id: Id) returns (ghost stopped: set<Id>, ghost log: seq<Id>)
      requires Valid() && id in extensions && extensions[id].state.Active?
      modifies this`extensions, this`contributions, this`stopLog, effects, targets, services
      ensures Valid() && (old(Owned()) ==> Owned())
      ensures Abs() == StoppedAll(old(Abs()), stopped) && stopLog == old(stopLog) + log
      ensures forall x :: x in stopped <==> Reaches(old(extensions), id, x)
      ensures Elements(log) == stopped && Distinct(log) && DependentsFirst(old(extensions), log)
      ensures SweepTraced(old(extensions), log, old(effects.ran), effects.ran)
    {
      hide SweepTraced, Sound, StoppedAll, Swept, ContributionsOwned, Reaches, DependentsFirst, PolicyTracked, ServiceRuntime.Valid, RuntimeEffectRegistry.Valid;
      EngineHasOrder(Abs(), id);
      ghost var m := Abs();
      var visited, entries := QuarantineRecursive(id, {});
      stopped, log := visited, entries;
      assert visited - {} == visited;
      SweepIsReachable(m, id, visited, log);
      SweptLog(m, id, visited, log);
    }

    method QuarantineRecursive(id: Id, visited: set<Id>) returns (now: set<Id>, ghost log: seq<Id>)
      requires Valid() && Settled(Abs(), id, visited)
      modifies this`extensions, this`contributions, this`stopLog, effects, targets, services
      ensures Valid() && (old(Owned()) ==> Owned())
      ensures visited <= now && id in now
      ensures Swept(old(Abs()), id, visited, now - visited, log)
      ensures Abs() == StoppedAll(old(Abs()), now - visited)
      ensures stopLog == old(stopLog) + log
      ensures SweepTraced(old(extensions), log, old(effects.ran), effects.ran)
      decreases extensions.Keys - visited
    {
      hide SweepTraced, StopTraced, Sound, StoppedAll, Swept, Settled, ActiveDependent, DependsOn, ContributionsOwned, PolicyTracked, ServiceRuntime.Valid, RuntimeEffectRegistry.Valid;
      ghost var m := Abs();
      SettledIsRegistered(m, id, visited);
      log := [];
      NothingSweptRan(m.extensions, effects.ran);
      if id in visited {
        StopNothing(m);
        NothingSwept(m, id, visited);
        assert visited - visited == {};
        assert stopLog == old(stopLog) + [];
        return visited, [];
      }
      now := visited + {id};
      assert now - visited - {id} == {};
      assert stopLog == old(stopLog) + log;
      var dependents := ActiveDependents(id);
      StopNothing(m);
      NothingSwept(m, id, now);
      for i := 0 to |dependents|
        invariant Valid() && (old(Owned()) ==> Owned())
        invariant SweptSoFar(m, id, visited, dependents, i, now, log)
        invariant Abs() == StoppedAll(m, now - visited - {id})
        invariant stopLog == old(stopLog) + log
        invariant SweepTraced(m.extensions, log, old(effects.ran), effects.ran)
      {
        ghost var ran := effects.ran;
        NextCall(m, id, visited, dependents, i, now, log);
        var next, more := QuarantineRecursive(dependents[i], now);
        CallDone(m, id, visited, dependents, i, now, log, next, more);
        SweepGoesOn(m, now - visited - {id}, log, more, old(effects.ran), ran, effects.ran);
        now, log := next, log + more;
      }
      ghost var below := now - visited - {id};
      LastCall(m, id, visited, dependents, now, log);
      HaltStops(Abs(), id);
      ghost var ran, n := effects.ran, Abs();
      var r := StopInner(id, false);
      RootIsSwept(n, id, r, Abs(), ran, effects.ran);
      SweepGoesOn(m, below, log, [id], old(effects.ran), ran, effects.ran);
      assert stopLog == (old(stopLog) + log) + [id] == old(stopLog) + (log + [id]);
      log := log + [id];
      StopsCompose(m, below, {id});
      assert below + {id} == now - visited;
    }

    /** The dependents that are active right now, in identifier order. */
    method ActiveDependents(id: Id) returns (dependents: seq<Id>)
      ensures forall d :: d in dependents <==> ActiveDependent(extensions, id, d)
    {
      hide DependsOn;
      var all := TargetDependents(extensions, id);
      dependents := [];
      for i := 0 to |all|
        invariant forall d :: d in dependents <==> d in all[..i] && ActiveDependent(extensions, id, d)
      {
        assert all[..i + 1] == all[..i] + [all[i]] && all[i] in Elements(all);
        if extensions[all[i]].state.Active? {
          dependents := dependents + [all[i]];
        }
      }
      assert all[..|all|] == all;
      assert forall d :: d in all <==> d in Elements(all);
    }

    // ---------- registration ----------

    /** Registers one instance. Its register callbacks buffer declarations; only when all of them succeed and
        their definitions fit the scope does the engine change. */
    method Register(id: Id, scope: Id, manifest: Manifest, components: seq<ComponentRegistration>, dependencies: seq<TargetDependency>)
      returns (r: EngineResult)
      requires Valid() && WellPatterned(manifest)
      requires forall d | d in dependencies :: d.provider.instanceId in extensions
      modifies this`extensions, this`contributions, this`order, this`nextOrder, services
      ensures Valid() && (old(Owned()) ==> Owned())
      ensures Registers(old(Abs()), id, scope, manifest, components, dependencies, r, Abs())
    {
      hide Sound, Coordinated, WellBuffered, Buffered, ContributionsOwned, PolicyTracked, ValidManifest, WellPatterned, FitsIn, Joins, JoinedModel, Reads, FirstOffence,
           ServiceRuntime.Valid, RuntimeEffectRegistry.Valid;
      var valid := CheckManifest(manifest);
      if !valid {
        return Err(InvalidManifest);
      }
      if id in extensions {
        return Err(InstanceAlreadyExists(id));
      }
      var ok, buffers := RunRegistration(id, scope, components, contributions);
      if !ok {
        return Err(RegistrationFailed);
      }
      MirrorDeclares(Abs());
      var refusal := ValidateDefinitions(RegistryOf(extensions), platform, DeclarationsOf(scope, buffers));
      if refusal.Some? {
        return Err(DefinitionRefused(refusal.value));
      }
      var e := Extension(manifest, Registered, IdsOf(components), buffers.contributions, DeclarationsOf(scope, buffers), dependencies);
      FittingJoins(Abs(), id, scope, manifest, components, dependencies, buffers, e);
      Admit(id, e);
      return Done;
    }

    /** Enters a checked instance into the router and the engine's tables. */
    method Admit(id: Id, e: Extension)
      requires Valid() && MayJoin(Abs(), id, e) && ProvidersLive(e) && KeysOf(e) !! contributions
      modifies this`extensions, this`contributions, this`order, this`nextOrder, services
      ensures Valid() && (old(Owned()) ==> Owned())
      ensures Abs() == JoinedModel(old(Abs()), id, e)
    {
      hide Sound, MayJoin, JoinedModel, RouterEntry, ProvidersLive, LiveComponents, KeysOf, Coordinated, ContributionsOwned,
           ServiceRuntime.Valid, ServiceRuntime.CacheCurrent, RuntimeEffectRegistry.Valid;
      ghost var m := Abs();
      var entry := RouterInstance(e.manifest.id, e.declared, set c | c in e.components, false);
      AdmittedJoins(m, id, e, entry);
      var _ := services.RegisterInstance(id, entry);
      contributions := InsertContributions(e, contributions);
      extensions := extensions[id := e];
      order, nextOrder := order[id := nextOrder], nextOrder + 1;
      assert Abs() == JoinedModel(m, id, e);
      assert Sound(Abs());
    }

    // ---------- policy ----------

    /** Approves a secret grant; policy can never exceed the manifest's own request. */
    method GrantRequestedSecretRead(id: Id, component: Id, pattern: Pattern) returns (r: EngineResult)
      requires Valid() && SecretPatterns.Valid(pattern)
      modifies this`policyChanges, secrets
      ensures Valid()
      ensures r.Done? <==> Requested(extensions, ComponentRef(id, component), pattern)
      ensures r.Err? ==> r.error == GrantRefusal(extensions, id, component)
      ensures Abs() == if r.Done? then old(Abs()).(grants := Granted(old(Abs()).grants, ComponentRef(id, component), pattern)) else old(Abs())
    {
      hide GrantRefusal, Sound, Requested, Granted, AnyAllows, ValidManifest, PolicyTracked, ServiceRuntime.Valid, RuntimeEffectRegistry.Valid;
      if id !in extensions {
        RequestNeedsInstance(extensions, id, component, pattern);
        return Err(InstanceNotFound(id));
      }
      ManifestIsValid(Abs(), id);
      r := DecideRequest(extensions, id, component, pattern);
      if r.Done? {
        StoreGrant(ComponentRef(id, component), pattern);
      }
    }

    method StoreGrant(owner: ComponentRef, pattern: Pattern)
      requires Valid() && SecretPatterns.Valid(pattern) && Requested(extensions, owner, pattern)
      modifies this`policyChanges, secrets
      ensures Valid()
      ensures Abs() == old(Abs()).(grants := Granted(old(Abs()).grants, owner, pattern))
    {
      hide Sound, Requested, Granted, PolicyTracked, ServiceRuntime.Valid, RuntimeEffectRegistry.Valid;
      GrantKeepsSound(Abs(), owner, pattern);
      ApplyGrant(owner, pattern);
    }

    /** Stores a grant and counts the policy change, keeping the route cache current. */
    method ApplyGrant(owner: ComponentRef, pattern: Pattern)
      requires services.secrets == secrets && PolicyTracked()
      modifies this`policyChanges, secrets
      ensures PolicyTracked()
      ensures secrets.readGrants == Granted(old(secrets.readGrants), owner, pattern)
    {
      hide RouteOf, Granted;
      ghost var before := secrets.readGrants;
      secrets.GrantRead(owner, pattern);
      if secrets.readGrants != before {
        policyChanges := policyChanges + 1;
      }
    }

    method GrantRequestedRuntimePermission(id: Id, component: Id, permission: Id) returns (r: EngineResult)
      requires Valid()
      modifies this`permissions
      ensures Valid()
      ensures r.Done? <==> PermissionRequested(extensions, ComponentRef(id, component), permission)
      ensures r.Err? ==> r.error == GrantRefusal(extensions, id, component)
      ensures Abs() == if r.Done? then old(Abs()).(permissions := Permitted(old(Abs()).permissions, ComponentRef(id, component), permission)) else old(Abs())
    {
      hide Sound, PolicyTracked, ServiceRuntime.Valid, RuntimeEffectRegistry.Valid;
      ghost var m := Abs();
      if id !in extensions {
        return Err(InstanceNotFound(id));
      }
      ManifestIsValid(m, id);
      var found := FindComponent(extensions[id].manifest, component);
      if found.None? {
        return Err(ComponentNotFound(component));
      }
      if permission !in found.value.runtime {
        return Err(NotRequested);
      }
      assert HasComponent(extensions, ComponentRef(id, component), found.value);
      permissions := Permitted(permissions, ComponentRef(id, component), permission);
      PermissionKeepsSound(m, ComponentRef(id, component), permission);
      return Done;
    }

    /** Publishes an execution target for an active component. */
    method RegisterExecutionTargetHost(owner: ComponentRef, target: string) returns (r: EngineResult)
      requires Valid()
      modifies targets
      ensures Valid()
      ensures r.Done? <==> Publishes(extensions, owner) && ValidTarget(target) && target != WASM_COMPONENT_TARGET && target !in old(targets.hosts)
      ensures Abs() == if r.Done? then old(Abs()).(hosts := old(Abs()).hosts[target := owner]) else old(Abs())
    {
      hide Sound, PolicyTracked, ServiceRuntime.Valid, RuntimeEffectRegistry.Valid, ValidTarget;
      ghost var m := Abs();
      if owner.instanceId !in extensions {
        return Err(InstanceNotFound(owner.instanceId));
      }
      var e := extensions[owner.instanceId];
      if !e.state.Active? || owner.componentId !in e.components {
        return Err(OwnerInactive(owner));
      }
      var refusal := targets.Register(owner, target);
      if refusal.Some? {
        return Err(TargetRefused(refusal.value));
      }
      HostKeepsSound(m, owner, target);
      return Done;
    }

    method SetPreferredProviderPolicy(scope: Id, contract: ContractKey, provider: ComponentRef)
      requires Valid()
      modifies this`preferred, services
      ensures Valid()
      ensures Abs() == WithPreferences(old(Abs()), old(Abs()).preferred[scope := PreferencesIn(old(Abs()).preferred, scope)[contract := provider]])
    {
      hide Sound, ServiceRuntime.Valid, ServiceRuntime.CacheCurrent, RuntimeEffectRegistry.Valid;
      ghost var m := Abs();
      MirrorDeclares(m);
      preferred := preferred[scope := PreferencesIn(preferred, scope)[contract := provider]];
      services.SetPreferredProvider(scope, contract, provider);
      PreferencesStayFull(m, scope, contract, provider);
    }

    method SetPreferredProvider(scope: Id, contract: ContractKey, provider: ComponentRef) returns (r: EngineResult)
      requires Valid()
      modifies this`preferred, services
      ensures Valid()
      ensures r == if provider.instanceId !in extensions then Err(InstanceNotFound(provider.instanceId))
                   else if extensions[provider.instanceId].declared.scopeId != scope then Err(WrongScope) else Done
      ensures Abs() == if r.Done? then WithPreferences(old(Abs()), old(Abs()).preferred[scope := PreferencesIn(old(Abs()).preferred, scope)[contract := provider]])
                       else old(Abs())
    {
      hide Sound, PolicyTracked, ServiceRuntime.Valid, RuntimeEffectRegistry.Valid;
      if provider.instanceId !in extensions {
        return Err(InstanceNotFound(provider.instanceId));
      }
      if extensions[provider.instanceId].declared.scopeId != scope {
        return Err(WrongScope);
      }
      SetPreferredProviderPolicy(scope, contract, provider);
      return Done;
    }

    method ClearPreferredProvider(scope: Id, contract: ContractKey)
      requires Valid()
      modifies this`preferred, services
      ensures Valid()
      ensures Abs() == WithPreferences(old(Abs()), PreferencesWithout(old(Abs()).preferred, scope, contract))
    {
      hide Sound, PreferencesWithout, NoEmptyPreferences, ServiceRuntime.Valid, ServiceRuntime.CacheCurrent, RuntimeEffectRegistry.Valid;
      ClearedStaysFull(Abs(), scope, contract);
      preferred := RemovePreference(preferred, scope, contract);
      services.ClearPreferredProvider(scope, contract);
    }

    /** Clears the scope's whole preference table, in the router contract by contract. */
    method ClearPreferredProviderPolicies(scope: Id)
      requires Valid()
      modifies this`preferred, services
      ensures Valid()
      ensures Abs() == WithPreferences(old(Abs()), old(Abs()).preferred - {scope})
    {
      hide Sound, ServiceRuntime.Valid, ServiceRuntime.CacheCurrent, RuntimeEffectRegistry.Valid;
      ghost var m := Abs();
      MirrorDeclares(m);
      ScopeClearedStaysFull(m, scope);
      if scope !in preferred {
        AbsentScope(m, scope);
        return;
      }
      var contracts := Enumerate(preferred[scope].Keys);
      preferred := preferred - {scope};
      for i := 0 to |contracts|
        modifies services
        invariant services.Valid() && services.secrets == secrets && PolicyTracked()
        invariant services.Topology() == m.router.(preferred := ClearedPrefix(m.preferred, scope, contracts, i))
      {
        ClearNext(m.preferred, scope, contracts, i);
        services.ClearPreferredProvider(scope, contracts[i]);
      }
      ClearedAll(m.preferred, scope, contracts);
    }

    /** Reserves a contract for the platform unless an extension in the scope has defined it. */
    method DefinePlatformContract(scope: Id, definition: Definition) returns (r: EngineResult)
      requires Valid()
      modifies this`platform, services
      ensures Valid()
      ensures r == if !NoDefinition(RegistryOf(extensions), scope, definition.contract) then Err(ReservationConflict(definition.contract))
                   else if definition.contract in PlatformIn(old(platform), scope) && PlatformIn(old(platform), scope)[definition.contract] != definition
                     then Err(PlatformConflict(definition.contract))
                   else Done
      ensures Abs() == if r.Done? then WithPlatform(old(Abs()), PlatformWith(old(Abs()).platform, scope, definition)) else old(Abs())
    {
      hide Sound, NoDefinition, PlatformWith, ServiceRuntime.Valid, ServiceRuntime.CacheCurrent, RuntimeEffectRegistry.Valid;
      var taken := DefinedByExtension(extensions, scope, definition.contract);
      if taken {
        return Err(ReservationConflict(definition.contract));
      }
      var held := PlatformIn(platform, scope);
      if definition.contract in held && held[definition.contract] != definition {
        return Err(PlatformConflict(definition.contract));
      }
      Reserve(scope, definition);
      return Done;
    }

    method Reserve(scope: Id, definition: Definition)
      requires Valid() && NoDefinition(RegistryOf(extensions), scope, definition.contract)
      requires definition.contract in PlatformIn(platform, scope) ==> PlatformIn(platform, scope)[definition.contract] == definition
      modifies this`platform, services
      ensures Valid()
      ensures Abs() == WithPlatform(old(Abs()), PlatformWith(old(Abs()).platform, scope, definition))
    {
      hide Sound, NoDefinition, PlatformWith, ServiceRuntime.Valid, ServiceRuntime.CacheCurrent, RuntimeEffectRegistry.Valid;
      ghost var m := Abs();
      MirrorDeclares(m);
      DefinitionKeepsSound(m, scope, definition);
      var reserved := definition.contract in PlatformIn(platform, scope);
      var _ := services.DefinePlatformContract(scope, definition);
      if !reserved {
        platform := PlatformWith(platform, scope, definition);
      }
    }

    method ClearPlatformContracts(scope: Id)
      requires Valid()
      modifies this`platform, services
      ensures Valid()
      ensures Abs() == WithPlatform(old(Abs()), old(Abs()).platform - {scope})
    {
      hide Sound, ServiceRuntime.Valid, ServiceRuntime.CacheCurrent, RuntimeEffectRegistry.Valid;
      ghost var m := Abs();
      MirrorDeclares(m);
      ClearKeepsSound(m, scope);
      services.ClearPlatformContracts(scope);
      platform := platform - {scope};
    }

    // ---------- the runtime pump ----------

    /** Polls, in principal order, every component that is active when its turn comes. A failing callback never ends
        the pump: its instance is quarantined, so a component misses its turn exactly when an earlier failure reached
        its instance, and stopped in the end are exactly the instances that the failures reach. */
    method PollRuntime() returns (ghost components: seq<ComponentRef>, ghost polls: seq<Poll>, ghost stopped: set<Id>)
      requires Valid()
      modifies this`extensions, this`contributions, this`stopLog, effects, targets, services
      ensures Valid() && (old(Owned()) ==> Owned())
      ensures TurnsOf(old(extensions), components) && |polls| == |components|
      ensures Pumped(old(Abs()), components, polls, stopped, Abs())
      ensures PumpTraced(old(extensions), components, polls, old(effects.ran), effects.ran)
    {
      hide PumpTraced, TurnRan, SweepTraced, PolledTo, Sound, StoppedAll, Pumped, OnlyOwn, Reaches, DependentsFirst, ContributionsOwned, PolicyTracked, ServiceRuntime.Valid, RuntimeEffectRegistry.Valid,
           SortedByKey;
      ghost var m := Abs();
      var turns := ActiveComponents();
      components, polls, stopped := turns, [], {};
      NothingPumped(m, turns);
      NothingPumpedRan(m.extensions, turns, effects.ran);
      for i := 0 to |turns|
        invariant Valid() && (old(Owned()) ==> Owned())
        invariant |polls| == i && Pumped(m, turns, polls, stopped, Abs())
        invariant PumpTraced(m.extensions, turns, polls, old(effects.ran), effects.ran)
      {
        var owner := turns[i];
        assert owner in turns;
        ghost var before, ran := Abs(), effects.ran;
        PumpGoesOn(m, turns, polls, stopped, before, effects.effects, targets.hosts);
        if owner.instanceId in extensions && extensions[owner.instanceId].state.Active? {
          var ok := PollComponent(owner);
          PumpGoesOn(m, turns, polls, stopped, before, effects.effects, targets.hosts);
          if ok {
            GoodTurnRan(m.extensions, owner, ran);
            TurnIsTraced(m.extensions, turns, polls, Polled(true), old(effects.ran), ran, effects.ran);
            polls := polls + [Polled(true)];
          } else {
            PumpedOn(m, turns, polls, stopped, before, effects.effects, targets.hosts);
            before := Abs();
            var more, log := QuarantineInstance(owner.instanceId);
            PumpedIsPolled(m, turns, polls, stopped, before);
            RootIsLogged(before.extensions, owner.instanceId, more, log);
            FailedTurnRan(m, stopped, before, owner, log, ran, effects.ran);
            TurnIsTraced(m.extensions, turns, polls, Polled(false), old(effects.ran), ran, effects.ran);
            PumpFails(m, turns, polls, stopped, before, more, Abs());
            polls, stopped := polls + [Polled(false)], stopped + more;
          }
        } else {
          SkippedTurnRan(m.extensions, owner, ran);
          TurnIsTraced(m.extensions, turns, polls, Skipped, old(effects.ran), ran, effects.ran);
          polls := polls + [Skipped];
        }
      }
    }

    /** One poll callback of an active component. */
    method PollComponent(owner: ComponentRef) returns (ok: bool)
      requires Valid() && owner.instanceId in extensions && extensions[owner.instanceId].state.Active?
      modifies effects, targets
      ensures Valid()
      ensures Abs() == old(Abs()).(effects := effects.effects, hosts := targets.hosts)
      ensures effects.ran == old(effects.ran) + [CallbackRun(owner, Polling, ok)]
    {
      hide Sound, EffectsOutside, HostsOutside, PolicyTracked, ServiceRuntime.Valid, RuntimeEffectRegistry.Valid;
      ghost var m := Abs();
      ok := RunCallback(owner, Polling, effects, targets);
      CallbackKeepsSound(m, owner.instanceId, effects.effects, targets.hosts);
    }

    method ActiveComponents() returns (components: seq<ComponentRef>)
      ensures TurnsOf(extensions, components)
    {
      hide SortedByKey;
      var listed: seq<ComponentRef> := [];
      var ids := Enumerate(extensions.Keys);
      for i := 0 to |ids|
        invariant forall c :: c in listed <==> c.instanceId in ids[..i] && ActiveComponent(extensions, c)
      {
        assert ids[i] in Elements(ids);
        assert forall x :: x in ids[..i + 1] <==> x in ids[..i] || x == ids[i];
        var e := extensions[ids[i]];
        if e.state.Active? {
          var own := seq(|e.components|, k requires 0 <= k < |e.components| => ComponentRef(ids[i], e.components[k]));
          OwnComponents(ids[i], e.components, own);
          listed := listed + own;
        }
      }
      components := SortByKey(listed, RefKey);
      forall c ensures c in components <==> ActiveComponent(extensions, c) {
        assert c in components <==> c in Elements(components);
        assert c in listed <==> c in Elements(listed);
        assert c.instanceId in extensions <==> c.instanceId in Elements(ids);
        assert ids[..|ids|] == ids;
      }
    }

    // ---------- composition and routing ----------

    /** `composition_snapshot_for_scope`: resolution among the active instances of one scope. */
    method CompositionSnapshotFor(scope: Id) returns (snapshot: Snapshot)
      requires Valid()
      ensures IsSnapshot(ScopeTopology(ViewOf(Abs()), scope, ActiveOf(extensions)), secrets.readGrants, snapshot)
    {
      hide Sound, Coordinated, IsSnapshot, ScopeTopology;
      MirrorDeclares(Abs());
      var view := View(RegistryOf(extensions), platform, preferred, secrets.readGrants, ActiveOf(extensions));
      assert view == ViewOf(Abs());
      snapshot := ResolveScope(view, scope, view.active, secrets);
    }

    /** `composition_topology_snapshot_for_scope`: resolution among every registered instance of one scope. */
    method TopologySnapshotFor(scope: Id) returns (snapshot: Snapshot)
      requires Valid()
      ensures IsSnapshot(ScopeTopology(ViewOf(Abs()), scope, extensions.Keys), secrets.readGrants, snapshot)
    {
      hide Sound, Coordinated, IsSnapshot, ScopeTopology;
      MirrorDeclares(Abs());
      var view := View(RegistryOf(extensions), platform, preferred, secrets.readGrants, ActiveOf(extensions));
      assert view == ViewOf(Abs());
      snapshot := ResolveScope(view, scope, extensions.Keys, secrets);
    }

    /** `contract_definition_owner_in_scope`: the least component that defines the contract, whatever its state. */
    method DefinitionOwner(scope: Id, contract: ContractKey) returns (r: Option<ComponentRef>)
      ensures var owners := DefinitionOwners(RegistryOf(extensions), scope, extensions.Keys, contract);
        r == if owners == {} then None else Some(LeastRef(owners))
    {
      r := LeastDefinitionOwner(RegistryOf(extensions), scope, extensions.Keys, contract);
    }

    /** Routes one service call through the cached router. */
    method CallService(consumer: ComponentRef, contract: ContractKey) returns (r: RouteResult)
      requires Valid() && policyChanges < U64_SIZE
      modifies services`routeCache
      ensures Valid() && Abs() == old(Abs())
      ensures r == RouteOf(Abs().router, secrets.readGrants, RouteKey(consumer, contract, false))
    {
      hide Sound, RouteOf, ServiceRuntime.Valid, ServiceRuntime.CacheCurrent, RuntimeEffectRegistry.Valid;
      r := services.ResolveProvider(RouteKey(consumer, contract, false));
    }
  }

  // ---------- pump steps ----------

  lemma GoodTurnRan(extensions: Extensions, owner: ComponentRef, ran: seq<CallbackRun>)
    ensures var after := ran + [CallbackRun(owner, Polling, true)];
      ran <= after && TurnRan(extensions, owner, Polled(true), after[|ran|..])
  {
  }

  lemma SkippedTurnRan(extensions: Extensions, owner: ComponentRef, ran: seq<CallbackRun>)
    ensures ran <= ran && TurnRan(extensions, owner, Skipped, ran[|ran|..])
  {
  }

  lemma PumpedIsPolled(m: Model, components: seq<ComponentRef>, polls: seq<Poll>, stopped: set<Id>, n: Model)
    requires Pumped(m, components, polls, stopped, n)
    ensures PolledTo(m, stopped, n)
  {
  }

  lemma RootIsLogged(extensions: Extensions, id: Id, stopped: set<Id>, log: seq<Id>)
    requires (forall x :: x in stopped <==> Reaches(extensions, id, x)) && Elements(log) == stopped
    ensures id in log
  {
    ReachesItself(extensions, id);
    assert id in Elements(log);
  }

  /** A stop without the guard runs the stop callbacks of an instance that is not stopped. */
  lemma RootIsSwept(m: Model, id: Id, r: EngineResult, n: Model, ran: seq<CallbackRun>, after: seq<CallbackRun>)
    requires id in m.extensions && !m.extensions[id].state.Stopped? && Stops(m, id, false, r, n)
    requires StopTraced(m.extensions, id, r, ran, after)
    ensures SweepTraced(m.extensions, [id], ran, after)
  {
    hide AllStopped, FailuresOf, SweepTraced;
    StopIsSwept(m.extensions, id, m.extensions[id].components, ran, after);
  }

  lemma PumpedOn(m: Model, components: seq<ComponentRef>, polls: seq<Poll>, stopped: set<Id>, n: Model, effects: Effects, hosts: Hosts)
    requires Pumped(m, components, polls, stopped, n)
    ensures Pumped(m, components, polls, stopped, n.(effects := effects, hosts := hosts))
  {
    hide StoppedBy, PolledTo;
    OnlyEffects(m, stopped, n, effects, hosts);
  }

  lemma OwnComponents(id: Id, ids: seq<Id>, own: seq<ComponentRef>)
    requires |own| == |ids| && forall k | 0 <= k < |ids| :: own[k] == ComponentRef(id, ids[k])
    ensures forall c: ComponentRef :: c in own <==> c.instanceId == id && c.componentId in ids
  {
    forall c: ComponentRef | c.instanceId == id && c.componentId in ids ensures c in own {
      var k :| 0 <= k < |ids| && ids[k] == c.componentId;
      assert own[k] == c;
    }
  }

  lemma CallbackKeepsSound(m: Model, id: Id, effects: Effects, hosts: Hosts)
    requires Sound(m) && id in m.extensions && m.extensions[id].state.Active?
    requires EffectsOutside(effects, id) == EffectsOutside(m.effects, id) && HostsOutside(hosts, id) == HostsOutside(m.hosts, id)
    ensures Sound(m.(effects := effects, hosts := hosts))
  {
    hide Coordinated, EdgesPointBack, GrantsRequested, PermissionsRequested, ManifestsValid, ValidGrants, EffectsOutside, HostsOutside, OwnedByActive, OnlyOwn;
    OutsideIsOfOthers(effects, hosts, id);
    OutsideIsOfOthers(m.effects, m.hosts, id);
    assert OnlyOwn(m, id, effects, hosts) by { OthersAreOwn(m, id, effects, hosts); }
    StartKeepsOwners(m, id, effects, hosts);
    assert m.extensions[id := m.extensions[id].(state := Active)] == m.extensions;
    OneState(m.extensions, id, Active);
    assert Mirrored(m.(effects := effects, hosts := hosts));
  }

  lemma OthersAreOwn(m: Model, id: Id, effects: Effects, hosts: Hosts)
    requires EffectsOfOthers(effects, {id}) == EffectsOfOthers(m.effects, {id}) && HostsOfOthers(hosts, {id}) == HostsOfOthers(m.hosts, {id})
    ensures OnlyOwn(m, id, effects, hosts)
  {
  }

  // ---------- registration steps ----------

  /** The instance keeps its components in registration order. */
  function IdsOf(components: seq<ComponentRegistration>): (ids: seq<Id>)
    ensures |ids| == |components| && forall i | 0 <= i < |ids| :: ids[i] == components[i].id
  {
    seq(|components|, i requires 0 <= i < |components| => components[i].id)
  }

  /** What a registration does. */
  ghost predicate Registers(m: Model, id: Id, scope: Id, manifest: Manifest, components: seq<ComponentRegistration>,
                            dependencies: seq<TargetDependency>, r: EngineResult, n: Model)
  {
    if !ValidManifest(manifest) then r == Err(InvalidManifest) && n == m
    else if id in m.extensions then r == Err(InstanceAlreadyExists(id)) && n == m
    else match r
      case Err(error) =>
        n == m && if !Succeeding(components) then error.RegistrationFailed?
                  else error.DefinitionRefused? && !DeclarationsFit(m, id, scope, components) && Offends(m, id, scope, components, error.definition)
      case Done =>
        && Succeeding(components) && id in n.extensions && n == JoinedModel(m, id, n.extensions[id])
        && Joins(m, id, scope, manifest, components, dependencies, n.extensions[id])
  }

  /** What the register callbacks declare agrees with the scope and leaves the platform's contracts alone. */
  ghost predicate DeclarationsFit(m: Model, id: Id, scope: Id, components: seq<ComponentRegistration>) {
    FitsIn(RegistryOf(m.extensions), m.platform, DeclarationsOf(scope, Buffered(id, scope, components, m.contributions)))
  }

  ghost predicate Offends(m: Model, id: Id, scope: Id, components: seq<ComponentRegistration>, error: DefinitionError) {
    FirstOffence(RegistryOf(m.extensions), m.platform, DeclarationsOf(scope, Buffered(id, scope, components, m.contributions)), error)
  }

  predicate Succeeding(components: seq<ComponentRegistration>) {
    forall c | c in components :: c.succeeds
  }

  /** The new instance is registered with its own fitting declarations and contribution ids nobody holds. */
  ghost predicate Joins(m: Model, id: Id, scope: Id, manifest: Manifest, components: seq<ComponentRegistration>,
                        dependencies: seq<TargetDependency>, e: Extension)
  {
    && MayJoin(m, id, e) && ProvidersLive(e) && KeysOf(e) !! m.contributions && Distinct(e.contributions)
    && e.manifest == manifest && e.components == IdsOf(components) && e.dependencies == dependencies
    && e.contributions == Buffered(id, scope, components, m.contributions).contributions
    && e.declared == DeclarationsOf(scope, Buffered(id, scope, components, m.contributions))
    && OwnDeclarations(id, e.declared) && DeclarationsFit(m, id, scope, components)
    && e.declared.scopeId == scope && Reads(id, scope, m.contributions, CallsOf(components), DeclaredBy(e))
  }

  /** What an instance declared, as its registration buffered it. */
  function DeclaredBy(e: Extension): Buffers {
    Buffers(e.contributions, e.declared.definitions, e.declared.providers, e.declared.consumers)
  }

  lemma FittingJoins(m: Model, id: Id, scope: Id, manifest: Manifest, components: seq<ComponentRegistration>,
                     dependencies: seq<TargetDependency>, buffers: Buffers, e: Extension)
    requires Sound(m) && id !in m.extensions && ValidManifest(manifest) && WellPatterned(manifest)
    requires forall d | d in dependencies :: d.provider.instanceId in m.extensions
    requires WellBuffered(id, scope, ComponentIds(components), m.contributions, buffers)
    requires buffers == Buffered(id, scope, components, m.contributions)
    requires FitsIn(RegistryOf(m.extensions), m.platform, DeclarationsOf(scope, buffers))
    requires e == Extension(manifest, Registered, IdsOf(components), buffers.contributions, DeclarationsOf(scope, buffers), dependencies)
    ensures Joins(m, id, scope, manifest, components, dependencies, e)
    ensures MayJoin(m, id, e) && ProvidersLive(e) && KeysOf(e) !! m.contributions
    ensures JoinedModel(m, id, e).extensions == m.extensions[id := e]
  {
    hide Sound, Coordinated, FitsIn, OwnDeclarations, ValidManifest, WellPatterned, Buffered, Reads;
    MirrorDeclares(m);
    BufferedReads(id, scope, components, m.contributions);
    FittingStaysCoordinated(RegistryOf(m.extensions), m.platform, id, e.declared);
    forall c | c in components ensures c.id in e.components {
      var i :| 0 <= i < |components| && components[i] == c;
      assert e.components[i] == c.id;
    }
  }

  lemma AdmittedJoins(m: Model, id: Id, e: Extension, entry: RouterInstance)
    requires Sound(m) && MayJoin(m, id, e) && ProvidersLive(e) && KeysOf(e) !! m.contributions
    requires entry == RouterInstance(e.manifest.id, e.declared, set c | c in e.components, false)
    ensures id !in m.router.instances && LiveComponents(entry)
    ensures Coordinated(Declared(m.router)[id := entry.declared], m.router.platform)
    ensures JoinedModel(m, id, e) == m.(
      extensions := m.extensions[id := e], contributions := m.contributions + KeysOf(e),
      router := m.router.(instances := m.router.instances[id := entry]),
      order := m.order[id := m.nextOrder], nextOrder := m.nextOrder + 1)
    ensures Sound(JoinedModel(m, id, e))
    ensures ContributionsOwned(m.extensions, m.contributions) ==>
      ContributionsOwned(JoinedModel(m, id, e).extensions, JoinedModel(m, id, e).contributions)
  {
    hide Sound, Coordinated, ContributionsOwned, WellPatterned, ValidManifest, DependsOn;
    MirrorDeclares(m);
    assert entry == RouterEntry(e);
    JoinKeepsSound(m, id, e);
    if ContributionsOwned(m.extensions, m.contributions) {
      JoinKeepsContributions(m, id, e);
    }
  }

  /** `manifest.validate()` */
  method CheckManifest(manifest: Manifest) returns (valid: bool)
    ensures valid <==> ValidManifest(manifest)
  {
    hide ValidTarget;
    for i := 0 to |manifest.components|
      invariant forall j | 0 <= j < i :: ValidTarget(manifest.components[j].target)
      invariant forall j, k | 0 <= j < k < i :: manifest.components[j].id != manifest.components[k].id
    {
      if !ValidTarget(manifest.components[i].target) {
        return false;
      }
      for j := 0 to i
        invariant forall k | 0 <= k < j :: manifest.components[k].id != manifest.components[i].id
      {
        if manifest.components[j].id == manifest.components[i].id {
          return false;
        }
      }
    }
    return true;
  }

  // ---------- policy steps ----------

  /** Why a grant to a component is refused. */
  ghost function GrantRefusal(extensions: Extensions, id: Id, component: Id): EngineError {
    if id !in extensions then InstanceNotFound(id)
    else if forall c | c in extensions[id].manifest.components :: c.id != component then ComponentNotFound(component)
    else NotRequested
  }

  /** An active component of a registered instance. */
  ghost predicate Publishes(extensions: Extensions, owner: ComponentRef) {
    && owner.instanceId in extensions && extensions[owner.instanceId].state.Active?
    && owner.componentId in extensions[owner.instanceId].components
  }

  lemma ManifestIsValid(m: Model, id: Id)
    requires Sound(m) && id in m.extensions
    ensures ValidManifest(m.extensions[id].manifest)
  {
    hide Coordinated, Mirrored, OwnedByActive, EdgesPointBack, GrantsRequested, PermissionsRequested, ValidGrants, ValidManifest;
  }

  lemma RequestNeedsInstance(extensions: Extensions, id: Id, component: Id, pattern: Pattern)
    requires id !in extensions
    ensures !Requested(extensions, ComponentRef(id, component), pattern)
    ensures GrantRefusal(extensions, id, component) == InstanceNotFound(id)
  {
  }

  lemma RequestIsFound(extensions: Extensions, id: Id, component: Id, pattern: Pattern, found: Option<ComponentDescriptor>)
    requires id in extensions
    requires found.None? <==> forall c | c in extensions[id].manifest.components :: c.id != component
    requires found.Some? ==> found.value in extensions[id].manifest.components && found.value.id == component
    requires found.Some? ==> forall c | c in extensions[id].manifest.components && c.id == component :: c == found.value
    ensures Requested(extensions, ComponentRef(id, component), pattern) <==>
      found.Some? && AnyAllows(found.value.secretRead, pattern)
    ensures GrantRefusal(extensions, id, component) == if found.None? then ComponentNotFound(component) else NotRequested
  {
    hide AllowsPattern;
    var owner := ComponentRef(id, component);
    if found.Some? {
      assert HasComponent(extensions, owner, found.value);
      if i :| 0 <= i < |found.value.secretRead| && AllowsPattern(found.value.secretRead[i], pattern) {
        assert found.value.secretRead[i] in found.value.secretRead;
      }
    }
  }

  /** Whether the manifest asks for a secret read that covers the pattern. */
  method DecideRequest(extensions: Extensions, id: Id, component: Id, pattern: Pattern) returns (r: EngineResult)
    requires id in extensions && ValidManifest(extensions[id].manifest) && SecretPatterns.Valid(pattern)
    ensures r.Done? <==> Requested(extensions, ComponentRef(id, component), pattern)
    ensures r.Err? ==> r.error == GrantRefusal(extensions, id, component)
  {
    hide GrantRefusal, Requested, AnyAllows, ValidManifest;
    var found := FindComponent(extensions[id].manifest, component);
    RequestIsFound(extensions, id, component, pattern, found);
    if found.None? {
      return Err(ComponentNotFound(component));
    }
    if !AnyAllows(found.value.secretRead, pattern) {
      return Err(NotRequested);
    }
    return Done;
  }

  lemma PreferencesStayFull(m: Model, scope: Id, contract: ContractKey, provider: ComponentRef)
    requires Sound(m)
    ensures Sound(WithPreferences(m, m.preferred[scope := PreferencesIn(m.preferred, scope)[contract := provider]]))
  {
    hide Coordinated, Mirrored, OwnedByActive, EdgesPointBack, GrantsRequested, PermissionsRequested, ManifestsValid, ValidGrants;
    var held := PreferencesIn(m.preferred, scope)[contract := provider];
    assert contract in held;
    PreferencesKeepSound(m, m.preferred[scope := held]);
  }

  lemma ClearedStaysFull(m: Model, scope: Id, contract: ContractKey)
    requires Sound(m)
    ensures NoEmptyPreferences(m.preferred) && m.router.preferred == m.preferred
    ensures Sound(WithPreferences(m, PreferencesWithout(m.preferred, scope, contract)))
  {
    hide Coordinated, OwnedByActive, EdgesPointBack, GrantsRequested, PermissionsRequested, ManifestsValid, ValidGrants;
    PreferencesKeepSound(m, PreferencesWithout(m.preferred, scope, contract));
  }

  method RemovePreference(preferred: PreferenceTable, scope: Id, contract: ContractKey) returns (r: PreferenceTable)
    requires NoEmptyPreferences(preferred)
    ensures r == PreferencesWithout(preferred, scope, contract)
  {
    r := preferred;
    if scope in preferred {
      var rest := preferred[scope] - {contract};
      if contract !in preferred[scope] {
        assert rest == preferred[scope];
        assert preferred[scope := rest] == preferred;
      }
      r := if rest == map[] then preferred - {scope} else preferred[scope := rest];
    }
  }

  lemma AbsentScope(m: Model, scope: Id)
    requires Sound(m) && scope !in m.preferred
    ensures WithPreferences(m, m.preferred - {scope}) == m
  {
    hide Sound;
    MirrorDeclares(m);
    assert m.preferred - {scope} == m.preferred;
  }

  lemma ScopeClearedStaysFull(m: Model, scope: Id)
    requires Sound(m)
    ensures Sound(WithPreferences(m, m.preferred - {scope}))
    ensures scope in m.preferred ==> m.preferred[scope] != map[]
  {
    hide Coordinated, Mirrored, OwnedByActive, EdgesPointBack, GrantsRequested, PermissionsRequested, ManifestsValid, ValidGrants;
    PreferencesKeepSound(m, m.preferred - {scope});
  }

  /** The router's preferences once the first `i` of the scope's contracts are cleared. */
  function ClearedPrefix(preferred: PreferenceTable, scope: Id, contracts: seq<ContractKey>, i: nat): PreferenceTable
    requires i <= |contracts|
  {
    if i == 0 then preferred else PreferencesWithout(ClearedPrefix(preferred, scope, contracts, i - 1), scope, contracts[i - 1])
  }

  lemma ClearNext(preferred: PreferenceTable, scope: Id, contracts: seq<ContractKey>, i: nat)
    requires i < |contracts|
    ensures PreferencesWithout(ClearedPrefix(preferred, scope, contracts, i), scope, contracts[i]) == ClearedPrefix(preferred, scope, contracts, i + 1)
  {
  }

  lemma {:induction false} ClearedSome(preferred: PreferenceTable, scope: Id, contracts: seq<ContractKey>, i: nat)
    requires i <= |contracts| && scope in preferred && preferred[scope] != map[]
    ensures var rest := preferred[scope] - Elements(contracts[..i]);
      ClearedPrefix(preferred, scope, contracts, i) == if rest == map[] then preferred - {scope} else preferred[scope := rest]
  {
    if i == 0 {
      assert preferred[scope] - Elements(contracts[..0]) == preferred[scope];
      assert preferred[scope := preferred[scope]] == preferred;
    } else {
      ClearedSome(preferred, scope, contracts, i - 1);
      var before, after := preferred[scope] - Elements(contracts[..i - 1]), preferred[scope] - Elements(contracts[..i]);
      assert contracts[..i] == contracts[..i - 1] + [contracts[i - 1]];
      assert Elements(contracts[..i]) == Elements(contracts[..i - 1]) + {contracts[i - 1]};
      assert after == before - {contracts[i - 1]};
      WithoutOneMore(preferred, scope, before, contracts[i - 1]);
    }
  }

  lemma WithoutOneMore(preferred: PreferenceTable, scope: Id, held: Preferences, contract: ContractKey)
    ensures var table := if held == map[] then preferred - {scope} else preferred[scope := held];
      var rest := held - {contract};
      PreferencesWithout(table, scope, contract) == if rest == map[] then preferred - {scope} else preferred[scope := rest]
  {
    var rest := held - {contract};
    if contract in held {
      assert preferred[scope := held] - {scope} == preferred - {scope};
      assert preferred[scope := held][scope := rest] == preferred[scope := rest];
    } else {
      assert rest == held;
    }
  }

  lemma ClearedAll(preferred: PreferenceTable, scope: Id, contracts: seq<ContractKey>)
    requires scope in preferred && preferred[scope] != map[] && Elements(contracts) == preferred[scope].Keys
    ensures ClearedPrefix(preferred, scope, contracts, |contracts|) == preferred - {scope}
  {
    ClearedSome(preferred, scope, contracts, |contracts|);
    assert contracts[..|contracts|] == contracts;
    assert preferred[scope] - Elements(contracts) == map[];
  }

  /** Whether any registered instance of the scope defines the contract. */
  method DefinedByExtension(extensions: Extensions, scope: Id, contract: ContractKey) returns (taken: bool)
    ensures taken <==> !NoDefinition(RegistryOf(extensions), scope, contract)
  {
    var ids := Enumerate(extensions.Keys);
    for i := 0 to |ids|
      invariant forall j, o | 0 <= j < i && ids[j] in extensions && extensions[ids[j]].declared.scopeId == scope
                             && o in extensions[ids[j]].declared.definitions :: o.definition.contract != contract
    {
      assert ids[i] in Elements(ids);
      var d := extensions[ids[i]].declared;
      if d.scopeId == scope && exists o | o in d.definitions :: o.definition.contract == contract {
        assert RegistryOf(extensions)[ids[i]] == d;
        return true;
      }
    }
    forall id, o | id in RegistryOf(extensions) && RegistryOf(extensions)[id].scopeId == scope && o in RegistryOf(extensions)[id].definitions
      ensures o.definition.contract != contract
    {
      assert id in Elements(ids);
      var j :| 0 <= j < |ids| && ids[j] == id;
    }
    return false;
  }

  lemma DefinitionKeepsSound(m: Model, scope: Id, definition: Definition)
    requires Sound(m) && NoDefinition(RegistryOf(m.extensions), scope, definition.contract)
    ensures Sound(WithPlatform(m, PlatformWith(m.platform, scope, definition)))
    ensures var held := PlatformIn(m.platform, scope);
      definition.contract in held && held[definition.contract] == definition ==> PlatformWith(m.platform, scope, definition) == m.platform
  {
    hide Sound, Coordinated, NoDefinition;
    var held := PlatformIn(m.platform, scope);
    if definition.contract in held && held[definition.contract] == definition {
      assert held[definition.contract := definition] == held;
      assert m.platform[scope := held] == m.platform;
    }
    MirrorDeclares(m);
    DefineKeepsSound(m.router, scope, definition);
    PlatformKeepsSound(m, PlatformWith(m.platform, scope, definition));
  }

  lemma ClearKeepsSound(m: Model, scope: Id)
    requires Sound(m)
    ensures Sound(WithPlatform(m, m.platform - {scope}))
  {
    hide Sound;
    MirrorDeclares(m);
    PlatformKeepsSound(m, m.platform - {scope});
  }

  // ---------- quarantine steps ----------

  /** What the loop over the dependents has established. */
  ghost predicate SweptSoFar(m: Model, id: Id, visited: set<Id>, dependents: seq<Id>, i: nat, now: set<Id>, log: seq<Id>)
  {
    && i <= |dependents| && visited + {id} <= now && id !in visited
    && Swept(m, id, visited + {id}, now - visited - {id}, log)
    && forall k | 0 <= k < i :: dependents[k] in now
  }

  lemma EngineHasOrder(m: Model, id: Id)
    requires Sound(m) && id in m.extensions && m.extensions[id].state.Active?
    ensures Settled(m, id, {})
  {
    hide Coordinated, Mirrored, OwnedByActive, GrantsRequested, PermissionsRequested, ManifestsValid, ValidGrants;
  }

  lemma SettledIsRegistered(m: Model, id: Id, visited: set<Id>)
    requires Settled(m, id, visited)
    ensures id in m.extensions && id in m.order && (id !in visited ==> !m.extensions[id].state.Stopped?)
  {
  }

  lemma SweptLog(m: Model, root: Id, stopped: set<Id>, log: seq<Id>)
    requires Swept(m, root, {}, stopped, log)
    ensures Elements(log) == stopped && Distinct(log) && DependentsFirst(m.extensions, log)
  {
  }

  lemma EdgesOfSound(m: Model)
    requires Sound(m)
    ensures EdgesPointBack(m.extensions, m.order, m.nextOrder)
  {
  }

  lemma NextCall(m: Model, id: Id, visited: set<Id>, dependents: seq<Id>, i: nat, now: set<Id>, log: seq<Id>)
    requires Sound(m) && Settled(m, id, visited) && i < |dependents| && SweptSoFar(m, id, visited, dependents, i, now, log)
    requires forall d | d in dependents :: ActiveDependent(m.extensions, id, d)
    ensures Settled(StoppedAll(m, now - visited - {id}), dependents[i], now)
    ensures StoppedAll(m, now - visited - {id}).extensions.Keys - now < m.extensions.Keys - visited
  {
    hide Sound, Settled, Swept, ActiveDependent, StoppedAll;
    EdgesOfSound(m);
    assert ActiveDependent(m.extensions, id, dependents[i]);
    CallIsSettled(m, id, visited, now - visited - {id}, dependents[i]);
    assert visited + {id} + (now - visited - {id}) == now;
    SettledIsRegistered(m, id, visited);
    KeysStay(m, now - visited - {id});
    assert id in m.extensions.Keys - visited && id !in m.extensions.Keys - now;
  }

  lemma KeysStay(m: Model, ids: set<Id>)
    ensures StoppedAll(m, ids).extensions.Keys == m.extensions.Keys
  {
  }

  lemma CallDone(m: Model, id: Id, visited: set<Id>, dependents: seq<Id>, i: nat, now: set<Id>, log: seq<Id>, next: set<Id>, more: seq<Id>)
    requires Sound(m) && i < |dependents| && SweptSoFar(m, id, visited, dependents, i, now, log)
    requires forall d | d in dependents :: ActiveDependent(m.extensions, id, d)
    requires now <= next && dependents[i] in next
    requires Swept(StoppedAll(m, now - visited - {id}), dependents[i], now, next - now, more)
    ensures SweptSoFar(m, id, visited, dependents, i + 1, next, log + more)
    ensures StoppedAll(StoppedAll(m, now - visited - {id}), next - now) == StoppedAll(m, next - visited - {id})
  {
    hide Sound, Swept, ActiveDependent, StoppedAll;
    EdgesOfSound(m);
    var before, after := now - visited - {id}, next - now;
    assert ActiveDependent(m.extensions, id, dependents[i]);
    assert visited + {id} + before == now;
    CallJoins(m, id, visited, before, log, dependents[i], after, more);
    StopsCompose(m, before, after);
    assert before + after == next - visited - {id};
  }

  lemma LastCall(m: Model, id: Id, visited: set<Id>, dependents: seq<Id>, now: set<Id>, log: seq<Id>)
    requires Sound(m) && Settled(m, id, visited) && SweptSoFar(m, id, visited, dependents, |dependents|, now, log)
    requires forall d :: d in dependents <==> ActiveDependent(m.extensions, id, d)
    ensures Swept(m, id, visited, now - visited, log + [id])
    ensures id in StoppedAll(m, now - visited - {id}).extensions
    ensures !StoppedAll(m, now - visited - {id}).extensions[id].state.Stopped?
  {
    hide Sound, Settled, Swept, ActiveDependent;
    EdgesOfSound(m);
    SettledIsRegistered(m, id, visited);
    var below := now - visited - {id};
    forall d | ActiveDependent(m.extensions, id, d) ensures d in below {
      DependentIsUnvisited(m, id, visited, d);
      var k :| 0 <= k < |dependents| && dependents[k] == d;
    }
    RootJoins(m, id, visited, below, log);
    assert below + {id} == now - visited;
  }

  /** What an unregistration does. */
  ghost predicate Unregisters(m: Model, id: Id, r: EngineResult, n: Model) {
    if DependentsOf(m.extensions, id) != {} then n == m && NamesDependents(m.extensions, id, r)
    else if id !in m.extensions then r == Err(InstanceNotFound(id)) && n == m
    else if !m.extensions[id].state.Active? then r.Done? && n == RemovedModel(m, id)
    else match r
      case Done => n == RemovedModel(StoppedAll(m, {id}), id)
      case Err(_) => n == StoppedAll(m, {id}) && StopFailureOf(m.extensions[id], r)
  }

  /** An inactive instance none of the others depends on. */
  ghost predicate Removable(m: Model, id: Id) {
    id in m.extensions && !m.extensions[id].state.Active? && DependentsOf(m.extensions, id) == {}
  }

  /** A stopped instance becomes removable, and its ids are nobody else's. */
  lemma StoppedForRemoval(m: Model, id: Id)
    requires Sound(m) && id in m.extensions && DependentsOf(m.extensions, id) == {}
    ensures m.extensions[id].state.Active? ==> Removable(StoppedAll(m, {id}), id)
    ensures m.extensions[id].state.Active? && ContributionsOwned(m.extensions, m.contributions) ==>
      !ReregisteredElsewhere(StoppedAll(m, {id}), id) && !ReregisteredElsewhere(m, id)
  {
    hide Sound;
    var n := StoppedAll(m, {id});
    assert forall x | x in m.extensions :: n.extensions[x].dependencies == m.extensions[x].dependencies;
    forall x | x in n.extensions && x != id ensures !DependsOn(n.extensions[x], id) {
      assert x !in DependentsOf(m.extensions, id);
    }
    if m.extensions[id].state.Active? && ContributionsOwned(m.extensions, m.contributions) {
      forall x, key | x != id && key in KeysOf(m.extensions[id]) ensures !HoldsKey(m.extensions, x, key) && !HoldsKey(n.extensions, x, key) {
        assert HoldsKey(m.extensions, id, key);
      }
      assert KeysOf(n.extensions[id]) == KeysOf(m.extensions[id]);
    }
  }

  lemma RemovableIsRegistered(m: Model, id: Id)
    requires Removable(m, id)
    ensures id in m.extensions
  {
  }

  lemma DropIsRemoval(m: Model, id: Id)
    requires Sound(m) && Removable(m, id)
    ensures HostsOutside(m.hosts, id) == HostsOfOthers(m.hosts, {id})
    ensures Sound(RemovedModel(m, id))
    ensures ContributionsOwned(m.extensions, m.contributions) ==>
      (ContributionsOwned(RemovedModel(m, id).extensions, RemovedModel(m, id).contributions) <==> !ReregisteredElsewhere(m, id))
  {
    hide Sound, RemovedModel, ContributionsOwned, ReregisteredElsewhere;
    OutsideIsOfOthers(m.effects, m.hosts, id);
    forall x | x in m.extensions && x != id ensures !DependsOn(m.extensions[x], id) {
      assert x !in DependentsOf(m.extensions, id);
    }
    RemovalKeepsSound(m, id);
    if ContributionsOwned(m.extensions, m.contributions) {
      RemovalKeepsContributionsIff(m, id);
    }
  }

  lemma HaltStops(m: Model, id: Id)
    ensures StoppedAll(m, {id}).extensions.Keys == m.extensions.Keys
    ensures id in m.extensions ==> StoppedAll(m, {id}).extensions[id].state.Stopped?
  {
  }

  /** What a stop does: refused while dependents are registered, otherwise always a full stop. */
  ghost predicate Stops(m: Model, id: Id, enforceGuard: bool, r: EngineResult, n: Model) {
    if id !in m.extensions then r == Err(InstanceNotFound(id)) && n == m
    else if m.extensions[id].state.Stopped? then r.Done? && n == m
    else if enforceGuard && DependentsOf(m.extensions, id) != {} then n == m && NamesDependents(m.extensions, id, r)
    else n == StoppedAll(m, {id}) && (r.Done? || StopFailureOf(m.extensions[id], r))
  }

  ghost predicate NamesDependents(extensions: Extensions, id: Id, r: EngineResult) {
    && r.Err? && r.error.ProviderInUse?
    && StrictlySorted(r.error.dependents, IdKey) && Elements(r.error.dependents) == DependentsOf(extensions, id)
  }

  ghost predicate StopFailureOf(e: Extension, r: EngineResult) {
    && r.Err? && r.error.StopFailed?
    && r.error.failures != [] && Elements(r.error.failures) <= Elements(e.components)
  }

  /** The stop log grows by the instance exactly when this call stopped it. */
  ghost function StopEntry(before: Extensions, id: Id, now: Extensions): seq<Id> {
    if id in before && !before[id].state.Stopped? && id in now && now[id].state.Stopped? then [id] else []
  }

  lemma HaltIsStop(m: Model, id: Id, effects: Effects, hosts: Hosts)
    requires Sound(m) && id in m.extensions && !m.extensions[id].state.Stopped?
    requires effects == EffectsOutside(m.effects, id) && hosts == HostsOutside(m.hosts, id)
    ensures id in m.router.instances
    ensures StoppedAll(m, {id}) == m.(
      extensions := m.extensions[id := m.extensions[id].(state := Stopped)],
      router := m.router.(instances := m.router.instances[id := m.router.instances[id].(active := false)]),
      contributions := m.contributions - KeysOf(m.extensions[id]), effects := effects, hosts := hosts)
    ensures Sound(StoppedAll(m, {id}))
    ensures ContributionsOwned(m.extensions, m.contributions) ==>
      ContributionsOwned(StoppedAll(m, {id}).extensions, StoppedAll(m, {id}).contributions)
  {
    hide Sound, EffectsOutside, HostsOutside, EffectsOfOthers, HostsOfOthers, WithStates, WithActivity, KeysOf, KeysOfAll, ContributionsOwned;
    OutsideIsOfOthers(m.effects, m.hosts, id);
    MirrorShows(m, id);
    OneState(m.extensions, id, Stopped);
    OneActivity(m.router, id, false);
    OneInstanceKeys(m.extensions, id);
    StopKeepsSound(m, {id});
    if ContributionsOwned(m.extensions, m.contributions) {
      StopKeepsContributions(m, {id});
    }
  }

  lemma EmptyIsSound(m: Model)
    requires m == Model(map[], {}, map[], map[], map[], map[], map[], map[], Tables(map[], map[], map[]), map[], 0)
    ensures Sound(m) && ContributionsOwned(m.extensions, m.contributions)
  {
  }

  /** The instance is not active and planning it alone succeeds. */
  ghost predicate CanStart(m: Model, id: Id) {
    id in m.extensions && !m.extensions[id].state.Active? && IsPlan(ViewOf(m), [id], Planned([id]))
  }

  /** Nothing refuses to start the instance before its callbacks run. */
  ghost predicate MayStart(m: Model, id: Id) {
    && id in m.extensions
    && IsPlan(ViewOf(m), [id], Planned([id]))
    && (m.extensions[id].state.Stopped? ==> KeysOf(m.extensions[id]) !! m.contributions)
  }

  /** The first of a stopped instance's contribution ids that has been taken meanwhile. */
  ghost predicate Conflicts(m: Model, id: Id, contribution: Id) {
    && id in m.extensions && m.extensions[id].state.Stopped?
    && FirstTaken(m.extensions[id].declared.scopeId, m.extensions[id].contributions, m.contributions, contribution)
  }

  /** What a start from `m` does: nothing when it fails or the instance is active already. */
  ghost predicate Starts(m: Model, id: Id, r: EngineResult, n: Model) {
    if id !in m.extensions then r == Err(InstanceNotFound(id)) && n == m
    else if m.extensions[id].state.Active? then r.Done? && n == m
    else match r
      case Done => MayStart(m, id) && OnlyOwn(m, id, n.effects, n.hosts) && n == StartedModel(m, id, n.effects, n.hosts)
      case Err(error) => n == m && StartError(m, id, error)
  }

  ghost predicate StartError(m: Model, id: Id, error: EngineError)
    requires id in m.extensions
  {
    match error
    case PlanRefused(reason) => IsPlan(ViewOf(m), [id], Refused(reason))
    case ContributionConflict(contribution) => IsPlan(ViewOf(m), [id], Planned([id])) && Conflicts(m, id, contribution)
    case StartFailed(component) => MayStart(m, id) && component in m.extensions[id].components
    case StartRollbackFailed(component, failures) => MayStart(m, id) && component in m.extensions[id].components
    case _ => false
  }

  lemma PlannedAlone(m: Model, id: Id, r: PlanResult)
    requires id in m.extensions && IsPlan(ViewOf(m), [id], r)
    ensures r.Planned? ==> r.order == [id]
  {
    hide IsPlan;
    if r.Planned? {
      PlanListsBatch(ViewOf(m), [id], r.order);
      assert r.order[0] in r.order;
    }
  }

  /** Revoking everything of an instance that was not active restores both registries. */
  lemma RestoredByRevoking(m: Model, id: Id)
    requires Sound(m) && id in m.extensions && !m.extensions[id].state.Active?
    ensures EffectsOutside(m.effects, id) == m.effects && HostsOutside(m.hosts, id) == m.hosts
    ensures m.router.instances[id].active == false
    ensures m.router.instances[id := m.router.instances[id].(active := false)] == m.router.instances
  {
    MirrorShows(m, id);
    OutsideIsOfOthers(m.effects, m.hosts, id);
    SameActivity(m.router, id, false);
    OwnsNothing(m, id);
  }

  lemma OwnsNothing(m: Model, id: Id)
    requires Sound(m) && (id !in m.extensions || !m.extensions[id].state.Active?)
    ensures EffectsOfOthers(m.effects, {id}) == m.effects && HostsOfOthers(m.hosts, {id}) == m.hosts
  {
    hide Coordinated, Mirrored, EdgesPointBack, GrantsRequested, PermissionsRequested, ManifestsValid, ValidGrants;
    InactiveOwnsNothing(m, id);
  }

  /** The started state, apart from contribution ids. */
  function LaunchedModel(m: Model, id: Id, effects: Effects, hosts: Hosts): Model {
    m.(extensions := WithStates(m.extensions, {id}, Active), router := WithActivity(m.router, {id}, true),
       effects := effects, hosts := hosts)
  }

  lemma RestartClashes(m: Model, id: Id, contribution: Id)
    requires CanStart(m, id) && Conflicts(m, id, contribution)
    ensures Starts(m, id, Err(ContributionConflict(contribution)), m)
  {
  }

  lemma LaunchFailed(m: Model, id: Id, contributions: Contributions, r: EngineResult)
    requires CanStart(m, id) && Claimable(m.extensions[id], m.contributions)
    requires contributions == Unclaimed(m.extensions[id], Claimed(m.extensions[id], m.contributions))
    requires r.Err? && (r.error.StartFailed? || r.error.StartRollbackFailed?) && r.error.component in m.extensions[id].components
    ensures contributions == m.contributions && Starts(m, id, r, m)
  {
  }

  lemma LaunchSucceeded(m: Model, id: Id, claimed: Contributions, effects: Effects, hosts: Hosts)
    requires CanStart(m, id) && Claimable(m.extensions[id], m.contributions)
    requires claimed == Claimed(m.extensions[id], m.contributions)
    requires OnlyOwn(m.(contributions := claimed), id, effects, hosts)
    ensures var n := LaunchedModel(m.(contributions := claimed), id, effects, hosts);
      && Starts(m, id, Done, n)
      && (ContributionsOwned(m.extensions, m.contributions) ==> ContributionsOwned(n.extensions, n.contributions))
  {
    hide ContributionsOwned;
    var n := LaunchedModel(m.(contributions := claimed), id, effects, hosts);
    assert n == StartedModel(m, id, effects, hosts);
    if ContributionsOwned(m.extensions, m.contributions) {
      StartKeepsContributions(m, id, effects, hosts);
    }
  }

  lemma LaunchedIsSound(m: Model, id: Id, effects: Effects, hosts: Hosts)
    requires Sound(m) && id in m.extensions
    requires EffectsOutside(effects, id) == EffectsOutside(m.effects, id) && HostsOutside(hosts, id) == HostsOutside(m.hosts, id)
    ensures OnlyOwn(m, id, effects, hosts) && id in m.router.instances
    ensures LaunchedModel(m, id, effects, hosts) == m.(
      extensions := m.extensions[id := m.extensions[id].(state := Active)],
      router := m.router.(instances := m.router.instances[id := m.router.instances[id].(active := true)]),
      effects := effects, hosts := hosts)
    ensures Sound(LaunchedModel(m, id, effects, hosts))
  {
    hide Sound, EffectsOutside, HostsOutside, EffectsOfOthers, HostsOfOthers, WithStates, WithActivity;
    OutsideIsOfOthers(effects, hosts, id);
    OutsideIsOfOthers(m.effects, m.hosts, id);
    MirrorShows(m, id);
    OneState(m.extensions, id, Active);
    OneActivity(m.router, id, true);
    StartKeepsSound(m, id, effects, hosts);
    OtherContributions(StartedModel(m, id, effects, hosts), m.contributions);
  }

  lemma OtherContributions(m: Model, contributions: Contributions)
    requires Sound(m)
    ensures Sound(m.(contributions := contributions))
  {
    hide Coordinated, Mirrored, OwnedByActive, EdgesPointBack, GrantsRequested, PermissionsRequested, ManifestsValid, ValidGrants;
    StatesMirror(m, contributions);
  }

  lemma StatesMirror(m: Model, contributions: Contributions)
    ensures Mirrored(m) == Mirrored(m.(contributions := contributions))
  {
  }
}
