/** Loading one packaged extension: preflight every required execution target, then register. */
module ArtifactLoader {
  import opened Identifiers
  import opened ExecutionTargets
  import opened Lists
  import opened Registration
  import opened EngineModel
  import opened EngineSteps
  import opened Engine
  import opened BootstrapModel

  /** What instantiating one packaged component gives. */
  datatype Payload = Payload(loads: bool, publishesTargets: bool, calls: seq<RegistrationCall>, registers: bool)
  datatype Package = Package(manifest: Manifest, payloads: map<Id, Payload>)

  datatype MissingTarget = MissingTarget(componentId: Id, target: string)

  datatype LoadError = ManifestRefused | ComponentLoadFailed(component: Id) | EngineRefused(error: EngineError)
  datatype LoadOutcome = Loaded(canPublishTargets: bool) | Deferred(missing: seq<MissingTarget>) | Refused(reason: LoadError)

  // ---------- what the preflight finds ----------

  predicate Unresolved(c: ComponentDescriptor, hosts: Hosts) {
    c.target != WASM_COMPONENT_TARGET && c.target !in hosts
  }

  /** The required components whose target nobody hosts, in manifest order. */
  function MissingTargets(components: seq<ComponentDescriptor>, hosts: Hosts): (r: seq<MissingTarget>)
    ensures r == [] <==> forall c | c in components :: c.required ==> !Unresolved(c, hosts)
  {
    if components == [] then []
    else
      var last := components[|components| - 1];
      assert components == components[..|components| - 1] + [last];
      MissingTargets(components[..|components| - 1], hosts)
        + if Unresolved(last, hosts) && last.required then [MissingTarget(last.id, last.target)] else []
  }

  /** The dependencies of the components that are built on a hosted target. */
  function DependenciesOf(components: seq<ComponentDescriptor>, hosts: Hosts): (r: seq<TargetDependency>)
    ensures forall d | d in r :: d.target in hosts && d.provider == hosts[d.target]
  {
    if components == [] then []
    else
      var last := components[|components| - 1];
      DependenciesOf(components[..|components| - 1], hosts)
        + if last.target != WASM_COMPONENT_TARGET && last.target in hosts
          then [TargetDependency(last.id, last.target, hosts[last.target])] else []
  }

  /** The components that are instantiated; an optional component without a host is skipped. */
  function RegistrationsOf(package: Package, components: seq<ComponentDescriptor>, hosts: Hosts): seq<ComponentRegistration> {
    if components == [] then []
    else
      var last := components[|components| - 1];
      RegistrationsOf(package, components[..|components| - 1], hosts)
        + if Unresolved(last, hosts) || last.id !in package.payloads then []
          else [ComponentRegistration(last.id, package.payloads[last.id].calls, package.payloads[last.id].registers)]
  }

  predicate CanPublish(package: Package, components: seq<ComponentDescriptor>) {
    exists i :: 0 <= i < |components| && components[i].target == WASM_COMPONENT_TARGET
      && components[i].id in package.payloads && package.payloads[components[i].id].publishesTargets
  }

  predicate Loads(package: Package, c: ComponentDescriptor) {
    c.id in package.payloads && package.payloads[c.id].loads
  }

  /** Every component that is to be instantiated can be. */
  predicate AllLoad(package: Package, hosts: Hosts) {
    forall c | c in package.manifest.components && !Unresolved(c, hosts) :: Loads(package, c)
  }

  /** The first component in manifest order that is to be instantiated and cannot be. */
  predicate FirstUnloadable(package: Package, hosts: Hosts, id: Id) {
    var components := package.manifest.components;
    exists i :: 0 <= i < |components| && components[i].id == id && !Unresolved(components[i], hosts) && !Loads(package, components[i])
                && forall j | 0 <= j < i :: Unresolved(components[j], hosts) || Loads(package, components[j])
  }

  // ---------- what the lists hold, component by component ----------

  function MissingAt(components: seq<ComponentDescriptor>, hosts: Hosts): nat -> Option<MissingTarget> {
    (p: nat) =>
      if p < |components| && components[p].required && components[p].target != WASM_COMPONENT_TARGET && components[p].target !in hosts then
        Some(MissingTarget(components[p].id, components[p].target))
      else None
  }

  function DependencyAt(components: seq<ComponentDescriptor>, hosts: Hosts): nat -> Option<TargetDependency> {
    (p: nat) =>
      if p < |components| && components[p].target != WASM_COMPONENT_TARGET && components[p].target in hosts then
        Some(TargetDependency(components[p].id, components[p].target, hosts[components[p].target]))
      else None
  }

  function RegistrationAt(package: Package, components: seq<ComponentDescriptor>, hosts: Hosts): nat -> Option<ComponentRegistration> {
    (p: nat) =>
      if p < |components| && (components[p].target == WASM_COMPONENT_TARGET || components[p].target in hosts) && components[p].id in package.payloads then
        Some(ComponentRegistration(components[p].id, package.payloads[components[p].id].calls, package.payloads[components[p].id].registers))
      else None
  }

  /** In manifest order: the required components without a host are missing, the hosted ones depend on their host, and
      what is neither unhosted nor absent from the package is registered with its own calls. */
  lemma {:induction false} ListsFollowManifest(package: Package, components: seq<ComponentDescriptor>, hosts: Hosts)
    ensures Shows(|components|, MissingAt(components, hosts), MissingTargets(components, hosts))
    ensures Shows(|components|, DependencyAt(components, hosts), DependenciesOf(components, hosts))
    ensures Shows(|components|, RegistrationAt(package, components, hosts), RegistrationsOf(package, components, hosts))
  {
    if components == [] {
      ShowsNothing(MissingAt(components, hosts));
      ShowsNothing(DependencyAt(components, hosts));
      ShowsNothing(RegistrationAt(package, components, hosts));
    } else {
      var front := components[..|components| - 1];
      ListsFollowManifest(package, front, hosts);
      hide Shows;
      ShowsNext(|front|, MissingAt(front, hosts), MissingTargets(front, hosts), MissingAt(components, hosts));
      ShowsNext(|front|, DependencyAt(front, hosts), DependenciesOf(front, hosts), DependencyAt(components, hosts));
      ShowsNext(|front|, RegistrationAt(package, front, hosts), RegistrationsOf(package, front, hosts), RegistrationAt(package, components, hosts));
    }
  }

  /** Why a load is refused: an invalid manifest; with every required target hosted, the first component that cannot be
      instantiated; or, with all of them instantiated, the engine's own refusal. */
  ghost predicate RefusedFor(m: Model, package: Package, id: Id, scope: Id, reason: LoadError) {
    var components := package.manifest.components;
    match reason
    case ManifestRefused => !ValidManifest(package.manifest)
    case ComponentLoadFailed(c) =>
      ValidManifest(package.manifest) && MissingTargets(components, m.hosts) == [] && FirstUnloadable(package, m.hosts, c)
    case EngineRefused(e) =>
      && ValidManifest(package.manifest) && MissingTargets(components, m.hosts) == [] && AllLoad(package, m.hosts)
      && Registers(m, id, scope, package.manifest, RegistrationsOf(package, components, m.hosts),
                   DependenciesOf(components, m.hosts), Err(e), m)
  }

  /** What one load attempt does: a deferral or a refusal leaves the engine alone. */
  ghost predicate Tries(m: Model, package: Package, id: Id, scope: Id, r: LoadOutcome, n: Model) {
    var components := package.manifest.components;
    && (r.Deferred? <==> ValidManifest(package.manifest) && MissingTargets(components, m.hosts) != [])
    && match r
       case Deferred(missing) => n == m && missing == MissingTargets(components, m.hosts)
       case Refused(reason) => n == m && RefusedFor(m, package, id, scope, reason)
       case Loaded(canPublish) =>
         && canPublish == CanPublish(package, components) && AllLoad(package, m.hosts)
         && Registers(m, id, scope, package.manifest, RegistrationsOf(package, components, m.hosts),
                      DependenciesOf(components, m.hosts), Done, n)
  }

  // ---------- the two passes ----------

  /** First pass: resolve each target once and collect what is missing. */
  method Preflight(components: seq<ComponentDescriptor>, hosts: Hosts) returns (resolved: Hosts, missing: seq<MissingTarget>)
    ensures missing == MissingTargets(components, hosts)
    ensures Resolves(components, hosts, resolved)
  {
    hide Resolves;
    resolved, missing := map[], [];
    NothingResolved(hosts);
    for i := 0 to |components|
      invariant missing == MissingTargets(components[..i], hosts)
      invariant Resolves(components[..i], hosts, resolved)
    {
      var c := components[i];
      assert components[..i + 1][..i] == components[..i] && components[..i + 1] == components[..i] + [c];
      ResolveOne(components, hosts, i, resolved);
      if c.target != WASM_COMPONENT_TARGET {
        if c.target in hosts {
          if c.target !in resolved {
            resolved := resolved[c.target := hosts[c.target]];
          }
        } else if c.required {
          missing := missing + [MissingTarget(c.id, c.target)];
        }
      }
    }
    assert components[..|components|] == components;
  }

  /** The resolved hosts are those of the components that need one and have one. */
  ghost predicate Resolves(components: seq<ComponentDescriptor>, hosts: Hosts, resolved: Hosts) {
    && (forall t | t in resolved :: t in hosts && resolved[t] == hosts[t])
    && forall c | c in components && c.target != WASM_COMPONENT_TARGET && c.target in hosts :: c.target in resolved
  }

  lemma NothingResolved(hosts: Hosts)
    ensures Resolves([], hosts, map[])
  {
  }

  lemma ResolveOne(components: seq<ComponentDescriptor>, hosts: Hosts, i: nat, resolved: Hosts)
    requires i < |components| && Resolves(components[..i], hosts, resolved)
    ensures var target := components[i].target;
      Resolves(components[..i + 1], hosts,
               if target != WASM_COMPONENT_TARGET && target in hosts && target !in resolved then resolved[target := hosts[target]] else resolved)
  {
    assert components[..i + 1] == components[..i] + [components[i]];
  }

  /** Second pass: instantiate the components; the first one that cannot be instantiated ends the load. */
  method Instantiate(package: Package, hosts: Hosts, resolved: Hosts)
    returns (failed: Option<Id>, registrations: seq<ComponentRegistration>, dependencies: seq<TargetDependency>, canPublish: bool)
    requires Resolves(package.manifest.components, hosts, resolved)
    ensures failed.Some? ==> FirstUnloadable(package, hosts, failed.value)
    ensures failed.None? ==>
      && AllLoad(package, hosts)
      && registrations == RegistrationsOf(package, package.manifest.components, hosts)
      && dependencies == DependenciesOf(package.manifest.components, hosts)
      && canPublish == CanPublish(package, package.manifest.components)
  {
    hide RegistrationsOf, DependenciesOf, CanPublish, Resolves, Unresolved, AllLoad, FirstUnloadable;
    var components := package.manifest.components;
    failed, registrations, dependencies, canPublish := None, [], [], false;
    NothingInstantiated(package, hosts);
    for i := 0 to |components|
      invariant registrations == RegistrationsOf(package, components[..i], hosts)
      invariant dependencies == DependenciesOf(components[..i], hosts)
      invariant canPublish == CanPublish(package, components[..i])
      invariant forall j | 0 <= j < i :: Unresolved(components[j], hosts) || Loads(package, components[j])
    {
      var c := components[i];
      NextInstantiated(package, components, i, hosts);
      ResolvedIff(components, hosts, resolved, i);
      if !(c.target != WASM_COMPONENT_TARGET && c.target !in resolved) {
        if c.id !in package.payloads || !package.payloads[c.id].loads {
          IsFirstUnloadable(package, hosts, i);
          return Some(c.id), [], [], false;
        }
        var payload := package.payloads[c.id];
        if c.target == WASM_COMPONENT_TARGET {
          canPublish := canPublish || payload.publishesTargets;
        } else {
          dependencies := dependencies + [TargetDependency(c.id, c.target, resolved[c.target])];
        }
        registrations := registrations + [ComponentRegistration(c.id, payload.calls, payload.registers)];
      }
    }
    assert components[..|components|] == components;
    assert AllLoad(package, hosts) by { EveryComponentLoads(package, hosts); }
  }

  lemma NothingInstantiated(package: Package, hosts: Hosts)
    ensures RegistrationsOf(package, [], hosts) == [] && DependenciesOf([], hosts) == [] && !CanPublish(package, [])
  {
  }

  lemma ResolvedIff(components: seq<ComponentDescriptor>, hosts: Hosts, resolved: Hosts, i: nat)
    requires Resolves(components, hosts, resolved) && i < |components|
    ensures Unresolved(components[i], hosts) <==> components[i].target != WASM_COMPONENT_TARGET && components[i].target !in resolved
    ensures components[i].target in resolved ==> components[i].target in hosts && resolved[components[i].target] == hosts[components[i].target]
    ensures components[i].target != WASM_COMPONENT_TARGET && components[i].target in hosts ==> components[i].target in resolved
  {
  }

  lemma NextInstantiated(package: Package, components: seq<ComponentDescriptor>, i: nat, hosts: Hosts)
    requires i < |components|
    ensures var c := components[i];
      && RegistrationsOf(package, components[..i + 1], hosts) == RegistrationsOf(package, components[..i], hosts)
           + (if Unresolved(c, hosts) || c.id !in package.payloads then []
              else [ComponentRegistration(c.id, package.payloads[c.id].calls, package.payloads[c.id].registers)])
      && DependenciesOf(components[..i + 1], hosts) == DependenciesOf(components[..i], hosts)
           + (if c.target != WASM_COMPONENT_TARGET && c.target in hosts then [TargetDependency(c.id, c.target, hosts[c.target])] else [])
      && CanPublish(package, components[..i + 1])
         == (CanPublish(package, components[..i]) || (c.target == WASM_COMPONENT_TARGET && c.id in package.payloads && package.payloads[c.id].publishesTargets))
      && (Unresolved(c, hosts) <==> c.target != WASM_COMPONENT_TARGET && c.target !in hosts)
  {
    var longer := components[..i + 1];
    assert longer[..|longer| - 1] == components[..i] && longer[i] == components[i];
    assert forall k | 0 <= k < i :: longer[k] == components[..i][k];
  }

  lemma IsFirstUnloadable(package: Package, hosts: Hosts, i: nat)
    requires var components := package.manifest.components;
      && i < |components| && !Unresolved(components[i], hosts) && !Loads(package, components[i])
      && forall j | 0 <= j < i :: Unresolved(components[j], hosts) || Loads(package, components[j])
    ensures FirstUnloadable(package, hosts, package.manifest.components[i].id)
  {
  }

  lemma EveryComponentLoads(package: Package, hosts: Hosts)
    requires var components := package.manifest.components;
      forall j | 0 <= j < |components| :: Unresolved(components[j], hosts) || Loads(package, components[j])
    ensures AllLoad(package, hosts)
  {
    forall c | c in package.manifest.components && !Unresolved(c, hosts) ensures Loads(package, c) {
      var j :| 0 <= j < |package.manifest.components| && package.manifest.components[j] == c;
    }
  }

  /** `try_load_archive` */
  method TryLoad(engine: ExtensionEngine, package: Package, id: Id, scope: Id) returns (r: LoadOutcome)
    requires engine.Valid() && WellPatterned(package.manifest)
    modifies engine`extensions, engine`contributions, engine`order, engine`nextOrder, engine.services
    ensures engine.Valid() && (old(engine.Owned()) ==> engine.Owned())
    ensures Tries(old(engine.Abs()), package, id, scope, r, engine.Abs())
  {
    hide ExtensionEngine.Valid, ExtensionEngine.Owned, Registers, ValidManifest, WellPatterned, MissingTargets, DependenciesOf, RegistrationsOf, CanPublish,
         AllLoad, FirstUnloadable;
    ghost var m := engine.Abs();
    var valid := CheckManifest(package.manifest);
    if !valid {
      return Refused(ManifestRefused);
    }
    var resolved, missing := Preflight(package.manifest.components, engine.targets.hosts);
    if missing != [] {
      return Deferred(missing);
    }
    var failed, registrations, dependencies, canPublish := Instantiate(package, engine.targets.hosts, resolved);
    if failed.Some? {
      return Refused(ComponentLoadFailed(failed.value));
    }
    EngineIsSound(engine);
    ProvidersAreActive(m, package.manifest.components);
    var result := engine.Register(id, scope, package.manifest, registrations, dependencies);
    RefusedUnchanged(m, id, scope, package.manifest, registrations, dependencies, result, engine.Abs());
    match result {
      case Done => return Loaded(canPublish);
      case Err(error) => return Refused(EngineRefused(error));
    }
  }

  lemma EngineIsSound(engine: ExtensionEngine)
    requires engine.Valid()
    ensures Sound(engine.Abs())
  {
  }

  lemma RefusedUnchanged(m: Model, id: Id, scope: Id, manifest: Manifest, components: seq<ComponentRegistration>,
                         dependencies: seq<TargetDependency>, r: EngineResult, n: Model)
    requires Registers(m, id, scope, manifest, components, dependencies, r, n)
    ensures r.Err? ==> n == m
  {
  }

  /** A hosted target belongs to an active instance, so every dependency of a load leads to one. */
  lemma ProvidersAreActive(m: Model, components: seq<ComponentDescriptor>)
    requires Sound(m)
    ensures forall d | d in DependenciesOf(components, m.hosts) :: OwnerActive(m.extensions, d.provider)
  {
    hide Mirrored, EdgesPointBack, GrantsRequested, PermissionsRequested, ManifestsValid;
  }

  /** Whatever a load registers was built on instances that are active at that moment. */
  lemma LoadedIsBuiltOnActive(m: Model, components: seq<ComponentDescriptor>, e: Extension)
    requires Sound(m) && e.dependencies == DependenciesOf(components, m.hosts)
    ensures BuiltOnActive(m, e)
  {
    hide Sound;
    ProvidersAreActive(m, components);
  }
}
