/** Activating one composition: load what can be loaded, start target providers, widen the bootstrap set,
    and either finish, stall at a genuine fixed point, or fail; every failure is rolled back. */
module Bootstrap {
  import opened Identifiers
  import SecretPolicy
  import opened Composition
  import opened DependencyGraph
  import opened Activation
  import opened Scopes
  import opened Planning
  import opened Planner
  import opened ExecutionTargets
  import opened RuntimeEffects
  import opened Callbacks
  import opened EngineModel
  import opened EngineSteps
  import opened Engine
  import opened BootstrapModel
  import opened ArtifactLoader
  import opened ProfileRecords

  /** Stored artifacts by digest; an absent digest cannot be opened. */
  type Store = map<Id, Package>

  datatype DeferredActivation = DeferredActivation(subject: Id, instanceId: Id, missing: seq<MissingTarget>)
  datatype BlockedActivation = BlockedActivation(instanceId: Id, reason: PlanError)
  datatype Stall = Stall(deferred: seq<DeferredActivation>, blocked: seq<BlockedActivation>, batchError: Option<PlanError>)

  datatype CleanupOperation = StopOperation | UnregisterOperation
  datatype CleanupFailure = CleanupFailure(instanceId: Id, operation: CleanupOperation, error: EngineError)

  datatype HostError =
    | ScopeMismatch(actual: Id)
    | UnsupportedContent(content: string)
    | ArtifactUnavailable(artifact: Id)
    | LoadFailed(reason: LoadError)
    | EngineFailed(error: EngineError)
    | BootstrapStalled(stall: Stall)
    | BootstrapRollback(primary: HostError, failures: seq<CleanupFailure>)

  /** What one activation run has done so far. */
  datatype Ledger = Ledger(registered: seq<Id>, started: seq<Id>, bootstrap: set<Id>)

  ghost predicate Tracked(m0: Model, m: Model, l: Ledger) {
    && Distinct(l.registered) && l.bootstrap <= Elements(l.registered)
    && Grown(m0, m, Elements(l.registered), l.started)
  }

  ghost predicate ValidStore(store: Store) {
    forall artifact | artifact in store :: WellPatterned(store[artifact].manifest)
  }

  // ---------- loading ----------

  datatype LoadStep = Progressed | Waiting(missing: seq<MissingTarget>) | Aborted(error: HostError)

  /** The activation cannot be loaded now: a required target has no host. */
  ghost predicate Waits(store: Store, a: ActivationRecord, hosts: Hosts, missing: seq<MissingTarget>) {
    && a.artifact in store && missing != []
    && missing == MissingTargets(store[a.artifact].manifest.components, hosts)
  }

  /** The instance was built from the activation's artifact, in its scope. */
  ghost predicate FromArtifact(store: Store, a: ActivationRecord, extensions: Extensions) {
    && a.artifact in store && a.instanceId in extensions
    && extensions[a.instanceId].manifest == store[a.artifact].manifest
    && extensions[a.instanceId].declared.scopeId == a.scopeId
  }

  predicate HoldsPermission(permissions: Permissions, owner: ComponentRef, permission: Id) {
    owner in permissions && permission in permissions[owner]
  }

  /** One of the first `n` approvals of the profile names the component and the permission in the activation's scope. */
  predicate ApprovedWithin(profile: Records, a: ActivationRecord, n: nat, owner: ComponentRef, permission: Id) {
    exists i :: 0 <= i < n && i < |profile.runtimePermissions|
      && profile.runtimePermissions[i] == PermissionGrant(a.scopeId, owner, permission)
  }

  /** The instance's components hold exactly the permissions the profile approves. */
  ghost predicate ApprovedFor(profile: Records, a: ActivationRecord, permissions: Permissions) {
    forall owner: ComponentRef, p | owner.instanceId == a.instanceId ::
      HoldsPermission(permissions, owner, p) <==> ApprovedWithin(profile, a, |profile.runtimePermissions|, owner, p)
  }

  /** Nothing changed but that one instance joined with its permissions. */
  ghost predicate OnlyJoined(m: Model, id: Id, n: Model) {
    && n.extensions.Keys == m.extensions.Keys + {id} && id !in m.extensions
    && (forall x | x in m.extensions :: n.extensions[x] == m.extensions[x])
    && PermissionsOfOthers(n.permissions, id) == PermissionsOfOthers(m.permissions, id)
    && n.hosts == m.hosts
  }

  /** The instance is registered, and the profile approves a permission for it that its manifest does not request. */
  ghost predicate RefusedApproval(profile: Records, a: ActivationRecord, at: Model, e: EngineError) {
    exists i :: 0 <= i < |profile.runtimePermissions| && RefusedApprovalAt(profile.runtimePermissions[i], a, at, e)
  }

  ghost predicate RefusedApprovalAt(g: PermissionGrant, a: ActivationRecord, at: Model, e: EngineError) {
    && g.scopeId == a.scopeId && g.owner.instanceId == a.instanceId && a.instanceId in at.extensions
    && !PermissionRequested(at.extensions, g.owner, g.permission)
    && e == GrantRefusal(at.extensions, a.instanceId, g.owner.componentId)
  }

  /** What makes loading one activation fail, in the engine as it then is: its artifact is not stored, the loader refuses
      it for a cause of its own, or an approval of the profile goes beyond its manifest. */
  ghost predicate LoadCause(store: Store, profile: Records, a: ActivationRecord, at: Model, e: HostError) {
    match e
    case ArtifactUnavailable(artifact) => artifact == a.artifact && artifact !in store
    case LoadFailed(reason) => a.artifact in store && RefusedFor(at, store[a.artifact], a.instanceId, a.scopeId, reason)
    case EngineFailed(error) => a.artifact in store && RefusedApproval(profile, a, at, error)
    case _ => false
  }

  /** An activation that merely waits for a target is never a cause. */
  lemma WaitingIsNoCause(store: Store, profile: Records, a: ActivationRecord, at: Model, missing: seq<MissingTarget>, e: HostError)
    requires Waits(store, a, at.hosts, missing) && ValidManifest(store[a.artifact].manifest) && a.instanceId !in at.extensions
    ensures !LoadCause(store, profile, a, at, e)
  {
  }

  /** Tries to load one activation and, once it is registered, grants what the profile approved for it. */
  method LoadOne(engine: ExtensionEngine, store: Store, profile: Records, a: ActivationRecord, l: Ledger, ghost m0: Model)
    returns (step: LoadStep, r: Ledger)
    requires engine.Valid() && engine.Owned() && ValidStore(store) && Tracked(m0, engine.Abs(), l)
    modifies engine`extensions, engine`contributions, engine`permissions, engine`order, engine`nextOrder, engine.services
    ensures engine.Valid() && engine.Owned() && Tracked(m0, engine.Abs(), r)
    ensures match step
      case Progressed =>
        && OnlyJoined(old(engine.Abs()), a.instanceId, engine.Abs())
        && FromArtifact(store, a, engine.Abs().extensions) && ApprovedFor(profile, a, engine.Abs().permissions)
        && r == l.(registered := l.registered + [a.instanceId], bootstrap := WithPublisher(store, a, l.bootstrap))
      case Waiting(missing) => r == l && engine.Abs() == old(engine.Abs()) && Waits(store, a, engine.Abs().hosts, missing)
      case Aborted(failure) => LoadCause(store, profile, a, engine.Abs(), failure)
  {
    hide ExtensionEngine.Valid, ExtensionEngine.Owned, Tries, WellPatterned, MissingTargets, Tracked, ExtensionEngine.Abs, FromArtifact,
         RefusedFor, RefusedApproval, ApprovedFor, OnlyJoined, CanPublish, PermissionsOfOthers;
    if a.artifact !in store {
      return Aborted(ArtifactUnavailable(a.artifact)), l;
    }
    ghost var m := engine.Abs();
    EngineIsSound(engine);
    var outcome := TryLoad(engine, store[a.artifact], a.instanceId, a.scopeId);
    match outcome {
      case Refused(reason) =>
        NotLoaded(m, store[a.artifact], a, outcome, engine.Abs());
        return Aborted(LoadFailed(reason)), l;
      case Deferred(missing) =>
        NotLoaded(m, store[a.artifact], a, outcome, engine.Abs());
        return Waiting(missing), l;
      case Loaded(canPublish) =>
        LoadedIsTracked(m0, m, l, store, a, canPublish, engine.Abs());
        ghost var joined := engine.Abs();
        r := l.(registered := l.registered + [a.instanceId], bootstrap := if canPublish then l.bootstrap + {a.instanceId} else l.bootstrap);
        var error := GrantApproved(engine, profile, a, r, m0);
        ApprovedJoined(m, a.instanceId, joined, engine.Abs().permissions);
        step := if error.Some? then Aborted(EngineFailed(error.value)) else Progressed;
    }
  }

  /** An instance that can publish execution targets is eligible for bootstrap. */
  ghost function WithPublisher(store: Store, a: ActivationRecord, bootstrap: set<Id>): set<Id>
    requires a.artifact in store
  {
    if CanPublish(store[a.artifact], store[a.artifact].manifest.components) then bootstrap + {a.instanceId} else bootstrap
  }

  lemma NotLoaded(m: Model, package: Package, a: ActivationRecord, r: LoadOutcome, n: Model)
    requires Tries(m, package, a.instanceId, a.scopeId, r, n) && !r.Loaded?
    ensures n == m
    ensures r.Deferred? ==> r.missing != [] && r.missing == MissingTargets(package.manifest.components, m.hosts)
    ensures r.Refused? ==> RefusedFor(n, package, a.instanceId, a.scopeId, r.reason)
  {
    hide RefusedFor, MissingTargets;
  }

  lemma LoadedIsTracked(m0: Model, m: Model, l: Ledger, store: Store, a: ActivationRecord, canPublish: bool, n: Model)
    requires a.artifact in store && Sound(m) && Tracked(m0, m, l)
    requires Tries(m, store[a.artifact], a.instanceId, a.scopeId, Loaded(canPublish), n)
    ensures Tracked(m0, n, l.(registered := l.registered + [a.instanceId], bootstrap := if canPublish then l.bootstrap + {a.instanceId} else l.bootstrap))
    ensures canPublish == CanPublish(store[a.artifact], store[a.artifact].manifest.components)
    ensures FromArtifact(store, a, n.extensions) && OnlyJoined(m, a.instanceId, n)
    ensures forall owner | owner in n.permissions :: owner.instanceId != a.instanceId
  {
    hide Sound, Grown, MissingTargets, DependenciesOf, RegistrationsOf, CanPublish, MayJoin, BuiltOnActive, DeclarationsFit;
    var id := a.instanceId;
    var e := n.extensions[id];
    LoadedIsBuiltOnActive(m, store[a.artifact].manifest.components, e);
    assert id !in m.extensions && e.state.Registered? by { JoiningIsRegistered(m, id, e); }
    JoinGrows(m0, m, Elements(l.registered), l.started, id, e);
    assert Elements(l.registered + [id]) == Elements(l.registered) + {id};
    RegisteredIsPresent(m0, m, l);
    forall owner: ComponentRef | owner.instanceId == id ensures owner !in m.permissions {
      UnregisteredHoldsNothing(m, owner);
    }
  }

  lemma JoiningIsRegistered(m: Model, id: Id, e: Extension)
    requires MayJoin(m, id, e)
    ensures id !in m.extensions && e.state.Registered?
  {
  }

  lemma RegisteredIsPresent(m0: Model, m: Model, l: Ledger)
    requires Tracked(m0, m, l)
    ensures forall x | x in l.registered :: x in m.extensions && x !in m0.extensions
    ensures forall x | x in l.started :: x in l.registered
  {
    hide AddedLinks;
    assert forall x :: x in l.registered <==> x in Elements(l.registered);
  }

  /** Grants every runtime permission the profile approves for the instance, and no other. */
  method GrantApproved(engine: ExtensionEngine, profile: Records, a: ActivationRecord, l: Ledger, ghost m0: Model)
    returns (error: Option<EngineError>)
    requires engine.Valid() && engine.Owned() && Tracked(m0, engine.Abs(), l) && a.instanceId in l.registered
    requires forall owner | owner in engine.Abs().permissions :: owner.instanceId != a.instanceId
    modifies engine`permissions
    ensures engine.Valid() && engine.Owned() && Tracked(m0, engine.Abs(), l)
    ensures engine.Abs() == old(engine.Abs()).(permissions := engine.Abs().permissions)
    ensures PermissionsOfOthers(engine.Abs().permissions, a.instanceId) == PermissionsOfOthers(old(engine.Abs()).permissions, a.instanceId)
    ensures error.None? ==> ApprovedFor(profile, a, engine.Abs().permissions)
    ensures error.Some? ==> RefusedApproval(profile, a, engine.Abs(), error.value)
  {
    hide ExtensionEngine.Valid, ExtensionEngine.Owned, Tracked, ExtensionEngine.Abs, PermissionsOfOthers, Permitted, ApprovedUpTo, GrantRefusal,
         PermissionRequested;
    assert a.instanceId in engine.Abs().extensions by { RegisteredIsPresent(m0, engine.Abs(), l); }
    ghost var m := engine.Abs();
    NothingApproved(profile, a, m.permissions);
    for i := 0 to |profile.runtimePermissions|
      invariant engine.Valid() && engine.Owned() && Tracked(m0, engine.Abs(), l)
      invariant engine.Abs() == m.(permissions := engine.Abs().permissions)
      invariant PermissionsOfOthers(engine.Abs().permissions, a.instanceId) == PermissionsOfOthers(m.permissions, a.instanceId)
      invariant ApprovedUpTo(profile, a, i, engine.Abs().permissions)
    {
      var g := profile.runtimePermissions[i];
      ApproveNext(profile, a, i, engine.Abs().permissions);
      if g.scopeId == a.scopeId && g.owner.instanceId == a.instanceId {
        PermissionIsTracked(m0, engine.Abs(), l, g.owner, g.permission);
        assert ComponentRef(a.instanceId, g.owner.componentId) == g.owner;
        var result := engine.GrantRequestedRuntimePermission(a.instanceId, g.owner.componentId, g.permission);
        ShownExtensions(engine);
        if result.Err? {
          assert RefusedApprovalAt(g, a, engine.Abs(), result.error);
          return Some(result.error);
        }
      }
    }
    AllApproved(profile, a, engine.Abs().permissions);
    return None;
  }

  lemma ShownExtensions(engine: ExtensionEngine)
    ensures engine.Abs().extensions == engine.extensions
  {
  }

  ghost predicate ApprovedUpTo(profile: Records, a: ActivationRecord, n: nat, permissions: Permissions) {
    forall owner: ComponentRef, p | owner.instanceId == a.instanceId ::
      HoldsPermission(permissions, owner, p) <==> ApprovedWithin(profile, a, n, owner, p)
  }

  lemma NothingApproved(profile: Records, a: ActivationRecord, permissions: Permissions)
    requires forall owner | owner in permissions :: owner.instanceId != a.instanceId
    ensures ApprovedUpTo(profile, a, 0, permissions)
  {
  }

  lemma ApproveNext(profile: Records, a: ActivationRecord, i: nat, permissions: Permissions)
    requires i < |profile.runtimePermissions| && ApprovedUpTo(profile, a, i, permissions)
    ensures var g := profile.runtimePermissions[i];
      if g.scopeId == a.scopeId && g.owner.instanceId == a.instanceId then
        ApprovedUpTo(profile, a, i + 1, Permitted(permissions, g.owner, g.permission))
        && PermissionsOfOthers(Permitted(permissions, g.owner, g.permission), a.instanceId) == PermissionsOfOthers(permissions, a.instanceId)
      else ApprovedUpTo(profile, a, i + 1, permissions)
  {
    var g := profile.runtimePermissions[i];
    forall owner, p ensures ApprovedWithin(profile, a, i + 1, owner, p) <==>
      ApprovedWithin(profile, a, i, owner, p) || g == PermissionGrant(a.scopeId, owner, p)
    {
    }
    hide ApprovedWithin;
    var next := Permitted(permissions, g.owner, g.permission);
    forall owner, p ensures HoldsPermission(next, owner, p) <==> HoldsPermission(permissions, owner, p) || (owner == g.owner && p == g.permission) {
    }
  }

  lemma AllApproved(profile: Records, a: ActivationRecord, permissions: Permissions)
    requires ApprovedUpTo(profile, a, |profile.runtimePermissions|, permissions)
    ensures ApprovedFor(profile, a, permissions)
  {
  }

  lemma ApprovedJoined(m: Model, id: Id, joined: Model, permissions: Permissions)
    requires OnlyJoined(m, id, joined) && PermissionsOfOthers(permissions, id) == PermissionsOfOthers(joined.permissions, id)
    ensures OnlyJoined(m, id, joined.(permissions := permissions))
  {
    hide PermissionsOfOthers;
  }

  lemma PermissionIsTracked(m0: Model, m: Model, l: Ledger, owner: ComponentRef, permission: Id)
    requires Tracked(m0, m, l) && owner.instanceId in l.registered
    ensures Tracked(m0, m.(permissions := Permitted(m.permissions, owner, permission)), l)
  {
    hide Grown;
    PermissionGrows(m0, m, Elements(l.registered), l.started, owner, permission);
  }

  /** Every entry waits for a host, and its report names exactly the required targets that are missing. */
  ghost predicate DeferredFor(store: Store, next: seq<ActivationRecord>, deferred: seq<DeferredActivation>, hosts: Hosts) {
    && |deferred| == |next|
    && forall i | 0 <= i < |next| ::
         deferred[i].subject == next[i].subject && deferred[i].instanceId == next[i].instanceId
         && Waits(store, next[i], hosts, deferred[i].missing)
  }

  /** A round moved some pending activations to the registered ones and deferred the rest. */
  ghost predicate RoundDone(store: Store, pending: seq<ActivationRecord>, next: seq<ActivationRecord>, deferred: seq<DeferredActivation>,
                            l: Ledger, r: Ledger, hosts: Hosts)
  {
    && |next| + |r.registered| == |pending| + |l.registered| && |next| <= |pending|
    && r.started == l.started && l.bootstrap <= r.bootstrap
    && (forall a | a in pending :: a in next || a.instanceId in r.registered)
    && (forall a | a in next :: a in pending)
    && (forall id | id in l.registered :: id in r.registered)
    && (forall id | id in r.registered :: id in l.registered || exists a :: a in pending && a.instanceId == id)
    && DeferredFor(store, next, deferred, hosts)
    && (|next| == |pending| ==> r == l && next == pending)
  }

  /** Every registered instance comes from the activation it was loaded for, with that activation's approvals. */
  ghost predicate Faithful(store: Store, profile: Records, m: Model, registered: seq<Id>, loaded: seq<ActivationRecord>) {
    && |loaded| == |registered|
    && forall i | 0 <= i < |loaded| ::
         loaded[i].instanceId == registered[i] && FromArtifact(store, loaded[i], m.extensions) && ApprovedFor(profile, loaded[i], m.permissions)
  }

  method LoadRound(engine: ExtensionEngine, store: Store, profile: Records, pending: seq<ActivationRecord>, l: Ledger,
                   ghost m0: Model, ghost done: seq<ActivationRecord>)
    returns (error: Option<HostError>, next: seq<ActivationRecord>, deferred: seq<DeferredActivation>, r: Ledger, ghost loaded: seq<ActivationRecord>)
    requires engine.Valid() && engine.Owned() && ValidStore(store) && Tracked(m0, engine.Abs(), l)
    requires Faithful(store, profile, engine.Abs(), l.registered, done)
    modifies engine`extensions, engine`contributions, engine`permissions, engine`order, engine`nextOrder, engine.services
    ensures engine.Valid() && engine.Owned() && Tracked(m0, engine.Abs(), r)
    ensures error.None? ==> RoundDone(store, pending, next, deferred, l, r, engine.Abs().hosts)
    ensures error.None? ==> Faithful(store, profile, engine.Abs(), r.registered, loaded)
    ensures error.None? ==> multiset(pending) + multiset(done) == multiset(next) + multiset(loaded)
    ensures error.None? && |next| == |pending| ==> engine.Abs() == old(engine.Abs())
    ensures error.Some? ==> exists a :: a in pending && LoadCause(store, profile, a, engine.Abs(), error.value)
  {
    hide ExtensionEngine.Valid, ExtensionEngine.Owned, ExtensionEngine.Abs, Tracked, Waits, RoundDone, ValidStore, Faithful, FromArtifact,
         LoadCause, ApprovedFor, OnlyJoined, CanPublish;
    next, deferred, r, loaded := [], [], l, done;
    NothingRound(store, l, engine.Abs().hosts);
    for i := 0 to |pending|
      invariant engine.Valid() && engine.Owned() && Tracked(m0, engine.Abs(), r)
      invariant engine.Abs().hosts == old(engine.Abs()).hosts
      invariant RoundDone(store, pending[..i], next, deferred, l, r, engine.Abs().hosts)
      invariant Faithful(store, profile, engine.Abs(), r.registered, loaded)
      invariant multiset(pending[..i]) + multiset(done) == multiset(next) + multiset(loaded)
      invariant |next| == i ==> engine.Abs() == old(engine.Abs())
    {
      var a := pending[i];
      assert pending[..i + 1] == pending[..i] + [a];
      OneMoreHandled(pending[..i], done, next, loaded, a);
      ghost var m := engine.Abs();
      var step, now := LoadOne(engine, store, profile, a, r, m0);
      match step {
        case Aborted(failure) =>
          return Some(failure), next, deferred, now, loaded;
        case Progressed =>
          JoinedHosts(m, a.instanceId, engine.Abs());
          RoundLoads(store, pending, i, next, deferred, l, r, now, engine.Abs().hosts);
          FaithfulGrows(store, profile, m, engine.Abs(), r.registered, loaded, a);
          r, loaded := now, loaded + [a];
        case Waiting(missing) =>
          RoundWaits(store, pending, i, next, deferred, l, r, missing, engine.Abs().hosts);
          next, deferred := next + [a], deferred + [DeferredActivation(a.subject, a.instanceId, missing)];
      }
    }
    assert pending[..|pending|] == pending;
    return None, next, deferred, r, loaded;
  }

  /** An activation is handled once, whether it is loaded now or deferred. */
  lemma OneMoreHandled(handled: seq<ActivationRecord>, done: seq<ActivationRecord>, next: seq<ActivationRecord>, loaded: seq<ActivationRecord>, a: ActivationRecord)
    requires multiset(handled) + multiset(done) == multiset(next) + multiset(loaded)
    ensures multiset(handled + [a]) + multiset(done) == multiset(next) + multiset(loaded + [a])
    ensures multiset(handled + [a]) + multiset(done) == multiset(next + [a]) + multiset(loaded)
  {
    var all := multiset(handled) + multiset(done) + multiset([a]);
    assert multiset(handled + [a]) + multiset(done) == all;
    assert multiset(next) + multiset(loaded + [a]) == all;
    assert multiset(next + [a]) + multiset(loaded) == all;
  }

  lemma JoinedHosts(m: Model, id: Id, n: Model)
    requires OnlyJoined(m, id, n)
    ensures n.hosts == m.hosts
  {
  }

  lemma FaithfulGrows(store: Store, profile: Records, m: Model, n: Model, registered: seq<Id>, loaded: seq<ActivationRecord>, a: ActivationRecord)
    requires Faithful(store, profile, m, registered, loaded) && OnlyJoined(m, a.instanceId, n)
    requires FromArtifact(store, a, n.extensions) && ApprovedFor(profile, a, n.permissions)
    ensures Faithful(store, profile, n, registered + [a.instanceId], loaded + [a])
  {
    hide ApprovedWithin;
    forall i | 0 <= i < |loaded| ensures ApprovedFor(profile, loaded[i], n.permissions) {
      assert loaded[i].instanceId in m.extensions;
      OthersHoldTheSame(m.permissions, n.permissions, a.instanceId);
    }
  }

  lemma OthersHoldTheSame(before: Permissions, after: Permissions, id: Id)
    requires PermissionsOfOthers(after, id) == PermissionsOfOthers(before, id)
    ensures forall owner: ComponentRef, p | owner.instanceId != id :: HoldsPermission(after, owner, p) <==> HoldsPermission(before, owner, p)
  {
    forall owner: ComponentRef, p | owner.instanceId != id ensures HoldsPermission(after, owner, p) <==> HoldsPermission(before, owner, p) {
      assert owner in PermissionsOfOthers(after, id) <==> owner in PermissionsOfOthers(before, id);
      assert owner in after ==> PermissionsOfOthers(after, id)[owner] == after[owner];
      assert owner in before ==> PermissionsOfOthers(before, id)[owner] == before[owner];
    }
  }

  /** Starting instances changes neither what they are nor what they may do. */
  ghost predicate KeepsDeclared(m: Model, n: Model) {
    SameDeclarations(m.extensions, n.extensions) && n.permissions == m.permissions
  }

  lemma FaithfulStays(store: Store, profile: Records, m: Model, n: Model, registered: seq<Id>, loaded: seq<ActivationRecord>)
    requires Faithful(store, profile, m, registered, loaded) && KeepsDeclared(m, n)
    ensures Faithful(store, profile, n, registered, loaded)
  {
    hide ApprovedFor;
  }

  lemma KeepsDeclaredOn(m: Model, n: Model, k: Model)
    requires KeepsDeclared(m, n) && KeepsDeclared(n, k)
    ensures KeepsDeclared(m, k)
  {
  }

  lemma KeepsItsOwn(m: Model)
    ensures KeepsDeclared(m, m)
  {
  }

  lemma NothingRound(store: Store, l: Ledger, hosts: Hosts)
    ensures RoundDone(store, [], [], [], l, l, hosts)
  {
  }

  lemma RoundLoads(store: Store, pending: seq<ActivationRecord>, i: nat, next: seq<ActivationRecord>, deferred: seq<DeferredActivation>,
                   l: Ledger, r: Ledger, now: Ledger, hosts: Hosts)
    requires i < |pending| && RoundDone(store, pending[..i], next, deferred, l, r, hosts)
    requires now.registered == r.registered + [pending[i].instanceId] && now.started == r.started && r.bootstrap <= now.bootstrap
    ensures RoundDone(store, pending[..i + 1], next, deferred, l, now, hosts) && |next| != i + 1
  {
    hide DeferredFor;
    assert pending[..i + 1] == pending[..i] + [pending[i]];
    forall id | id in now.registered ensures id in l.registered || exists a :: a in pending[..i + 1] && a.instanceId == id {
      if id in r.registered && id !in l.registered {
        var a :| a in pending[..i] && a.instanceId == id;
        assert a in pending[..i + 1];
      } else {
        assert pending[i] in pending[..i + 1];
      }
    }
  }

  lemma RoundWaits(store: Store, pending: seq<ActivationRecord>, i: nat, next: seq<ActivationRecord>, deferred: seq<DeferredActivation>,
                   l: Ledger, r: Ledger, missing: seq<MissingTarget>, hosts: Hosts)
    requires i < |pending| && RoundDone(store, pending[..i], next, deferred, l, r, hosts)
    requires Waits(store, pending[i], hosts, missing)
    ensures RoundDone(store, pending[..i + 1], next + [pending[i]],
                      deferred + [DeferredActivation(pending[i].subject, pending[i].instanceId, missing)], l, r, hosts)
  {
    hide Waits;
    assert pending[..i + 1] == pending[..i] + [pending[i]];
    forall id | id in r.registered && id !in l.registered ensures exists a :: a in pending[..i + 1] && a.instanceId == id {
      var a :| a in pending[..i] && a.instanceId == id;
      assert a in pending[..i + 1];
    }
  }

  // ---------- widening the bootstrap set ----------

  /** The registered topology of the scope, whatever the instances' states, binds like this. */
  ghost predicate TopologyBinds(m: Model, scope: Id, b: ContractBinding) {
    var t := ScopeTopology(ViewOf(m), scope, m.extensions.Keys);
    exists c :: c in t.consumers && Binds(t, m.grants, c, b)
  }

  ghost predicate OwnsDefinition(m: Model, scope: Id, contract: ContractKey, x: Id) {
    var owners := DefinitionOwners(RegistryOf(m.extensions), scope, m.extensions.Keys, contract);
    owners != {} && LeastRef(owners).instanceId == x
  }

  ghost predicate Wanted(m: Model, scope: Id, id: Id, reason: PlanError, b: ContractBinding) {
    && reason.RequiredContractUnresolved? && reason.instance == id
    && TopologyBinds(m, scope, b) && Requires(b, ComponentRef(id, reason.component), reason.contract)
  }

  predicate Requires(b: ContractBinding, consumer: ComponentRef, contract: ContractKey) {
    b.required && b.consumer == consumer && b.contract == contract
  }

  predicate Serves(b: ContractBinding, n: nat, x: Id) {
    exists k :: 0 <= k < n && k < |b.providers| && b.providers[k].instanceId == x
  }

  /** A refused instance pulls in the registered instances that would serve or define what it lacks. */
  ghost predicate Widens(m: Model, scope: Id, id: Id, reason: PlanError, registered: seq<Id>, x: Id) {
    && x != id && x in registered
    && exists b :: Wanted(m, scope, id, reason, b)
                   && (Serves(b, |b.providers|, x) || OwnsDefinition(m, scope, b.contract, x))
  }

  /** `expand_bootstrap_dependencies` */
  method Expand(engine: ExtensionEngine, scope: Id, id: Id, reason: PlanError, registered: seq<Id>, bootstrap: set<Id>)
    returns (expanded: bool, r: set<Id>)
    requires engine.Valid()
    ensures forall x :: x in r <==> x in bootstrap || Widens(engine.Abs(), scope, id, reason, registered, x)
    ensures expanded <==> r != bootstrap
  {
    hide ExtensionEngine.Valid, IsSnapshot, ScopeTopology, TopologyBinds, OwnsDefinition;
    ghost var m := engine.Abs();
    r := bootstrap;
    if !reason.RequiredContractUnresolved? || reason.instance != id {
      return false, r;
    }
    var snapshot := engine.TopologySnapshotFor(scope);
    var binding := FindRequired(snapshot.bindings, ComponentRef(id, reason.component), reason.contract);
    SnapshotBinds(engine, scope, id, reason, snapshot, binding);
    if binding.None? {
      return false, r;
    }
    var providers := binding.value.providers;
    for i := 0 to |providers|
      invariant forall x :: x in r <==> x in bootstrap || (x != id && x in registered && Serves(binding.value, i, x))
    {
      if providers[i].instanceId != id && providers[i].instanceId in registered {
        r := r + {providers[i].instanceId};
      }
    }
    var owner := engine.DefinitionOwner(scope, reason.contract);
    OwnerOwns(m, scope, reason.contract, owner);
    if owner.Some? && owner.value.instanceId != id && owner.value.instanceId in registered {
      r := r + {owner.value.instanceId};
    }
    expanded := r != bootstrap;
  }

  method FindRequired(bindings: seq<ContractBinding>, consumer: ComponentRef, contract: ContractKey) returns (r: Option<ContractBinding>)
    ensures r.Some? ==> r.value in bindings && Requires(r.value, consumer, contract)
    ensures r.None? ==> forall b | b in bindings :: !Requires(b, consumer, contract)
  {
    for i := 0 to |bindings|
      invariant forall j | 0 <= j < i :: !Requires(bindings[j], consumer, contract)
    {
      if Requires(bindings[i], consumer, contract) {
        return Some(bindings[i]);
      }
    }
    return None;
  }

  lemma OwnerOwns(m: Model, scope: Id, contract: ContractKey, owner: Option<ComponentRef>)
    requires var owners := DefinitionOwners(RegistryOf(m.extensions), scope, m.extensions.Keys, contract);
      owner == if owners == {} then None else Some(LeastRef(owners))
    ensures forall x :: OwnsDefinition(m, scope, contract, x) <==> owner.Some? && owner.value.instanceId == x
  {
  }

  /** The binding found in the snapshot is the only one wanted. */
  lemma SnapshotBinds(engine: ExtensionEngine, scope: Id, id: Id, reason: PlanError, snapshot: Snapshot, binding: Option<ContractBinding>)
    requires engine.Valid() && reason.RequiredContractUnresolved? && reason.instance == id
    requires IsSnapshot(ScopeTopology(ViewOf(engine.Abs()), scope, engine.Abs().extensions.Keys), engine.Abs().grants, snapshot)
    requires binding.Some? ==> binding.value in snapshot.bindings && Requires(binding.value, ComponentRef(id, reason.component), reason.contract)
    requires binding.None? ==> forall b | b in snapshot.bindings :: !Requires(b, ComponentRef(id, reason.component), reason.contract)
    ensures forall b :: Wanted(engine.Abs(), scope, id, reason, b) <==> binding == Some(b)
  {
    hide ExtensionEngine.Valid, ScopeTopology, StrictlySorted, Outcome, WellFormed;
    EngineIsSound(engine);
    var m := engine.Abs();
    var t := ScopeTopology(ViewOf(m), scope, m.extensions.Keys);
    MirrorDeclares(m);
    TopologyIsWellFormed(m, scope);
    forall b ensures TopologyBinds(m, scope, b) <==> b in snapshot.bindings {
    }
    forall b, c | b in snapshot.bindings && c in snapshot.bindings && b.consumer == c.consumer && b.contract == c.contract ensures b == c {
      BindingIsUnique(t, m.grants, b, c);
    }
  }

  lemma TopologyIsWellFormed(m: Model, scope: Id)
    requires Coordinated(RegistryOf(m.extensions), m.platform)
    ensures WellFormed(ScopeTopology(ViewOf(m), scope, m.extensions.Keys))
  {
    hide Coordinated;
    ScopeIsWellFormed(RegistryOf(m.extensions), m.platform, m.preferred, scope, m.extensions.Keys);
  }

  lemma BindingIsUnique(t: Topology, grants: SecretPolicy.Grants, b: ContractBinding, c: ContractBinding)
    requires WellFormed(t) && b.consumer == c.consumer && b.contract == c.contract
    requires exists x :: x in t.consumers && Binds(t, grants, x, b)
    requires exists x :: x in t.consumers && Binds(t, grants, x, c)
    ensures b == c
  {
    hide Outcome;
    var x :| x in t.consumers && Binds(t, grants, x, b);
    var y :| y in t.consumers && Binds(t, grants, y, c);
    assert x == y;
  }

  // ---------- starting what may publish targets ----------

  /** The last callbacks of the run belong to a registered instance that was not started and whose start failed. */
  ghost predicate FailedStart(at: Model, l: Ledger, e: EngineError, ran: seq<CallbackRun>) {
    exists id, n: nat :: FailedStartOf(at, l, e, ran, id, n)
  }

  ghost predicate FailedStartOf(at: Model, l: Ledger, e: EngineError, ran: seq<CallbackRun>, id: Id, n: nat) {
    && id in l.registered && id !in l.started && id in at.extensions && n <= |ran|
    && (e.StartFailed? || e.StartRollbackFailed?) && StartRan(id, at.extensions[id].components, Some(e), ran[n..])
  }

  lemma StartHasFailed(m: Model, l: Ledger, id: Id, e: EngineError, before: seq<CallbackRun>, ran: seq<CallbackRun>)
    requires id in l.registered && id !in l.started && id in m.extensions && !m.extensions[id].state.Active?
    requires (e.StartFailed? || e.StartRollbackFailed?) && StartTraced(m.extensions, id, Err(e), before, ran)
    ensures FailedStart(m, l, e, ran)
  {
    hide StartRan;
    assert FailedStartOf(m, l, e, ran, id, |before|);
  }

  predicate Eligible(l: Ledger, id: Id) {
    id in l.bootstrap && id in l.registered && id !in l.started
  }

  /** Planning the instance alone is refused for this reason. */
  ghost predicate RefusedWith(m: Model, id: Id, reason: PlanError) {
    id in m.extensions && IsPlan(ViewOf(m), [id], PlanResult.Refused(reason))
  }

  /** The refusal of an eligible activation: planning it alone fails, and its reason widens nothing. */
  ghost predicate Stuck(m: Model, l: Ledger, a: ActivationRecord, b: BlockedActivation) {
    && b.instanceId == a.instanceId && RefusedWith(m, a.instanceId, b.reason)
    && forall x | Widens(m, a.scopeId, a.instanceId, b.reason, l.registered, x) :: x in l.bootstrap
  }

  ghost predicate StuckIn(m: Model, l: Ledger, a: ActivationRecord, blocked: seq<BlockedActivation>) {
    exists b :: b in blocked && Stuck(m, l, a, b)
  }

  ghost predicate AllStuck(m: Model, l: Ledger, activations: seq<ActivationRecord>, blocked: seq<BlockedActivation>) {
    forall i | 0 <= i < |activations| && Eligible(l, activations[i].instanceId) :: StuckIn(m, l, activations[i], blocked)
  }

  /** Starts one registered instance; what fails after planning is its own start. */
  method StartOne(engine: ExtensionEngine, id: Id, l: Ledger, ghost m0: Model) returns (r: EngineResult)
    requires engine.Valid() && engine.Owned() && Tracked(m0, engine.Abs(), l) && id in l.registered && id !in l.started
    modifies engine`extensions, engine`contributions, engine.effects, engine.targets, engine.services
    ensures engine.Valid() && engine.Owned() && KeepsDeclared(old(engine.Abs()), engine.Abs())
    ensures Tracked(m0, engine.Abs(), if r.Done? then l.(started := l.started + [id]) else l)
    ensures r.Err? ==> engine.Abs() == old(engine.Abs())
    ensures r.Err? ==> if r.error.PlanRefused? then RefusedWith(engine.Abs(), id, r.error.reason) else FailedStart(engine.Abs(), l, r.error, engine.effects.ran)
  {
    hide ExtensionEngine.Valid, ExtensionEngine.Owned, ExtensionEngine.Abs, Tracked, Starts, StartTraced, FailedStart, KeepsDeclared, RefusedWith;
    ghost var m, ran := engine.Abs(), engine.effects.ran;
    ShownExtensions(engine);
    r := engine.Start(id);
    StartIsTracked(m0, m, l, id, r, engine.Abs());
    if r.Err? && !r.error.PlanRefused? {
      StartHasFailed(m, l, id, r.error, ran, engine.effects.ran);
    }
  }

  /** One pass over the activations, in profile order, up to the first successful start. */
  method StartPass(engine: ExtensionEngine, activations: seq<ActivationRecord>, l: Ledger, ghost m0: Model)
    returns (error: Option<EngineError>, startedOne: bool, expanded: bool, blocked: seq<BlockedActivation>, r: Ledger)
    requires engine.Valid() && engine.Owned() && Tracked(m0, engine.Abs(), l)
    modifies engine`extensions, engine`contributions, engine.effects, engine.targets, engine.services
    ensures engine.Valid() && engine.Owned() && Tracked(m0, engine.Abs(), r)
    ensures r.registered == l.registered && l.bootstrap <= r.bootstrap
    ensures startedOne ==> |r.started| == |l.started| + 1 && r.started[..|l.started|] == l.started
    ensures !startedOne ==> r.started == l.started && engine.Abs() == old(engine.Abs())
    ensures error.None? && !startedOne && !expanded ==> r == l && AllStuck(engine.Abs(), l, activations, blocked)
    ensures expanded && error.None? ==> l.bootstrap < r.bootstrap
    ensures error.Some? ==> FailedStart(engine.Abs(), r, error.value, engine.effects.ran)
    ensures KeepsDeclared(old(engine.Abs()), engine.Abs())
  {
    hide ExtensionEngine.Valid, ExtensionEngine.Owned, ExtensionEngine.Abs, Tracked, Starts, StartTraced, FailedStart, StuckIn, Widens, KeepsDeclared;
    KeepsItsOwn(engine.Abs());
    error, startedOne, expanded, blocked, r := None, false, false, [], l;
    ghost var m := engine.Abs();
    for i := 0 to |activations|
      invariant engine.Valid() && engine.Owned() && Tracked(m0, engine.Abs(), r) && engine.Abs() == m
      invariant error.None? && !startedOne && r.registered == l.registered && r.started == l.started && l.bootstrap <= r.bootstrap
      invariant expanded <==> r.bootstrap != l.bootstrap
      invariant !expanded ==> AllStuck(m, l, activations[..i], blocked)
    {
      var a := activations[i];
      if Eligible(r, a.instanceId) {
        var result := StartOne(engine, a.instanceId, r, m0);
        if result.Done? {
          r := r.(started := r.started + [a.instanceId]);
          return None, true, expanded, blocked, r;
        }
        if !result.error.PlanRefused? {
          return Some(result.error), false, expanded, blocked, r;
        }
        var reason := result.error.reason;
        var widened, bootstrap := Expand(engine, a.scopeId, a.instanceId, reason, r.registered, r.bootstrap);
        WideningIsTracked(m0, m, r, bootstrap, a, reason);
        OneMoreStuck(m, l, activations, i, blocked, BlockedActivation(a.instanceId, reason), r.bootstrap, bootstrap);
        blocked := blocked + [BlockedActivation(a.instanceId, reason)];
        expanded := expanded || widened;
        r := r.(bootstrap := bootstrap);
      } else {
        NotEligible(m, l, activations, i, blocked, r);
      }
    }
    assert activations[..|activations|] == activations;
  }

  lemma StartIsTracked(m0: Model, m: Model, l: Ledger, id: Id, r: EngineResult, n: Model)
    requires Tracked(m0, m, l) && id in l.registered && id !in l.started && Starts(m, id, r, n)
    ensures r.Done? ==> Tracked(m0, n, l.(started := l.started + [id]))
    ensures r.Err? ==> n == m && Tracked(m0, n, l)
    ensures r.Err? ==> r.error.PlanRefused? || r.error.StartFailed? || r.error.StartRollbackFailed?
    ensures r.Err? && r.error.PlanRefused? ==> RefusedWith(m, id, r.error.reason)
    ensures n.extensions.Keys == m.extensions.Keys && id in m.extensions
    ensures !m.extensions[id].state.Active?
    ensures RegistryOf(n.extensions) == RegistryOf(m.extensions) && n.preferred == m.preferred && n.platform == m.platform && n.grants == m.grants
    ensures r.Done? ==> ActiveOf(n.extensions) == ActiveOf(m.extensions) + {id}
    ensures KeepsDeclared(m, n)
  {
    hide IsPlan, OnlyOwn, AddedLinks, KeepsOthers;
    assert id in Elements(l.registered);
    assert m.extensions[id].state.Registered?;
    if r.Done? {
      StartGrows(m0, m, Elements(l.registered), l.started, id, n.effects, n.hosts);
    }
  }

  lemma WideningIsTracked(m0: Model, m: Model, l: Ledger, bootstrap: set<Id>, a: ActivationRecord, reason: PlanError)
    requires Tracked(m0, m, l)
    requires forall x :: x in bootstrap <==> x in l.bootstrap || Widens(m, a.scopeId, a.instanceId, reason, l.registered, x)
    ensures Tracked(m0, m, l.(bootstrap := bootstrap)) && l.bootstrap <= bootstrap
  {
    hide Grown;
    forall x | x in bootstrap ensures x in Elements(l.registered) {
    }
  }

  lemma OneMoreStuck(m: Model, l: Ledger, activations: seq<ActivationRecord>, i: nat, blocked: seq<BlockedActivation>,
                     b: BlockedActivation, before: set<Id>, after: set<Id>)
    requires i < |activations| && b.instanceId == activations[i].instanceId && RefusedWith(m, b.instanceId, b.reason)
    requires before == l.bootstrap ==> AllStuck(m, l, activations[..i], blocked)
    requires l.bootstrap <= before <= after
    requires forall x :: x in after <==> x in before || Widens(m, activations[i].scopeId, b.instanceId, b.reason, l.registered, x)
    ensures after == l.bootstrap ==> AllStuck(m, l, activations[..i + 1], blocked + [b])
  {
    hide RefusedWith, Widens;
    if after == l.bootstrap {
      assert Stuck(m, l, activations[i], b);
      var prefix := activations[..i + 1];
      forall k | 0 <= k < |prefix| && Eligible(l, prefix[k].instanceId) ensures StuckIn(m, l, prefix[k], blocked + [b]) {
        if k < i {
          assert prefix[k] == activations[..i][k];
          var c :| c in blocked && Stuck(m, l, activations[..i][k], c);
          assert c in blocked + [b];
        } else {
          assert b in blocked + [b];
        }
      }
    }
  }

  lemma NotEligible(m: Model, l: Ledger, activations: seq<ActivationRecord>, i: nat, blocked: seq<BlockedActivation>, r: Ledger)
    requires i < |activations| && !Eligible(r, activations[i].instanceId)
    requires r.registered == l.registered && r.started == l.started && l.bootstrap <= r.bootstrap
    requires r.bootstrap == l.bootstrap ==> AllStuck(m, l, activations[..i], blocked)
    ensures r.bootstrap == l.bootstrap ==> AllStuck(m, l, activations[..i + 1], blocked)
  {
    hide StuckIn;
    assert forall k | 0 <= k < i :: activations[..i + 1][k] == activations[..i][k];
  }

  /** Starts and widens until a whole pass does neither. */
  method StartBootstrap(engine: ExtensionEngine, activations: seq<ActivationRecord>, l: Ledger, ghost m0: Model)
    returns (error: Option<EngineError>, blocked: seq<BlockedActivation>, r: Ledger)
    requires engine.Valid() && engine.Owned() && Tracked(m0, engine.Abs(), l)
    modifies engine`extensions, engine`contributions, engine.effects, engine.targets, engine.services
    ensures engine.Valid() && engine.Owned() && Tracked(m0, engine.Abs(), r)
    ensures r.registered == l.registered && l.bootstrap <= r.bootstrap
    ensures |l.started| <= |r.started| && r.started[..|l.started|] == l.started
    ensures error.None? ==> AllStuck(engine.Abs(), r, activations, blocked)
    ensures error.Some? ==> FailedStart(engine.Abs(), r, error.value, engine.effects.ran)
    ensures error.None? && |r.started| == |l.started| ==> engine.Abs() == old(engine.Abs())
    ensures KeepsDeclared(old(engine.Abs()), engine.Abs())
  {
    hide ExtensionEngine.Valid, ExtensionEngine.Owned, ExtensionEngine.Abs, Tracked, AllStuck, FailedStart, KeepsDeclared;
    KeepsItsOwn(engine.Abs());
    error, blocked, r := None, [], l;
    var again := true;
    while again
      invariant engine.Valid() && engine.Owned() && Tracked(m0, engine.Abs(), r)
      invariant error.None? && r.registered == l.registered && l.bootstrap <= r.bootstrap
      invariant |l.started| <= |r.started| && r.started[..|l.started|] == l.started
      invariant |r.started| == |l.started| ==> engine.Abs() == old(engine.Abs())
      invariant KeepsDeclared(old(engine.Abs()), engine.Abs())
      invariant !again ==> AllStuck(engine.Abs(), r, activations, blocked)
      decreases |l.registered| - |r.started|, Elements(l.registered) - r.bootstrap, again
    {
      ghost var before := r;
      ghost var m := engine.Abs();
      LedgerIsBounded(m0, m, r);
      var failed, startedOne, expanded;
      failed, startedOne, expanded, blocked, r := StartPass(engine, activations, r, m0);
      KeepsDeclaredOn(old(engine.Abs()), m, engine.Abs());
      LedgerIsBounded(m0, engine.Abs(), r);
      if failed.Some? {
        error := failed;
        StartedPrefix(l.started, before.started, r.started);
        return;
      }
      again := startedOne || expanded;
      assert startedOne ==> |before.started| < |r.started|;
      StillWider(l.registered, before.bootstrap, r.bootstrap);
    }
  }

  lemma LedgerIsBounded(m0: Model, m: Model, l: Ledger)
    requires Tracked(m0, m, l)
    ensures |l.started| <= |l.registered| && l.bootstrap <= Elements(l.registered)
  {
    hide KeepsOthers, AddedLinks;
    DistinctSize(l.registered);
    DistinctSize(l.started);
    SubsetSize(Elements(l.started), Elements(l.registered));
  }

  lemma StillWider(registered: seq<Id>, before: set<Id>, after: set<Id>)
    requires before <= after <= Elements(registered)
    ensures before < after ==> Elements(registered) - after < Elements(registered) - before
    ensures before == after ==> Elements(registered) - after == Elements(registered) - before
  {
    if before < after {
      var x :| x in after && x !in before;
      assert x in Elements(registered) - before && x !in Elements(registered) - after;
    }
  }

  lemma StartedPrefix(a: seq<Id>, b: seq<Id>, c: seq<Id>)
    requires |a| <= |b| && b[..|a|] == a
    ensures |b| <= |c| && c[..|b|] == b ==> |a| <= |c| && c[..|a|] == a
  {
    if |b| <= |c| && c[..|b|] == b {
      assert c[..|a|] == c[..|b|][..|a|];
    }
  }
}
