/** What a composition activation has added to the engine, and how rolling it back takes it away again. */
module BootstrapModel {
  import opened Identifiers
  import opened SecretPolicy
  import opened DependencyGraph
  import opened Scopes
  import opened RuntimeEffects
  import opened ExecutionTargets
  import opened EngineModel
  import opened EngineSteps

  function PermissionsOfAllOthers(permissions: Permissions, ids: set<Id>): Permissions {
    map owner | owner in permissions && owner.instanceId !in ids :: permissions[owner]
  }

  /** Everything outside the added instances is as it was in `m0`, except host preferences. */
  ghost predicate KeepsOthers(m0: Model, m: Model, added: set<Id>) {
    && added !! m0.extensions.Keys && m.extensions.Keys == m0.extensions.Keys + added
    && (forall x | x in m0.extensions :: m.extensions[x] == m0.extensions[x])
    && (forall x | x in m0.extensions && x in m0.order :: x in m.order && m.order[x] == m0.order[x])
    && EffectsOfOthers(m.effects, added) == m0.effects && HostsOfOthers(m.hosts, added) == m0.hosts
    && m.grants == m0.grants && PermissionsOfAllOthers(m.permissions, added) == m0.permissions
    && m.platform == m0.platform
  }

  /** The added instances are registered, and active exactly when they were started. */
  ghost predicate AddedStates(m: Model, added: set<Id>, started: seq<Id>) {
    && Distinct(started) && (forall x | x in started :: x in added)
    && forall x | x in added :: x in m.extensions && m.extensions[x].state == if x in started then Active else Registered
  }

  /** An added instance was built only on targets of older instances or of instances started before it. */
  ghost predicate AddedLinks(m0: Model, m: Model, added: set<Id>, started: seq<Id>) {
    && (forall x, p | x in added && x in m.extensions && DependsOn(m.extensions[x], p) :: p in m0.extensions || p in started)
    && forall i, j | 0 <= i < |started| && 0 <= j < |started| && started[i] in m.extensions
                     && DependsOn(m.extensions[started[i]], started[j]) :: j < i
  }

  ghost predicate Grown(m0: Model, m: Model, added: set<Id>, started: seq<Id>) {
    KeepsOthers(m0, m, added) && AddedStates(m, added, started) && AddedLinks(m0, m, added, started)
  }

  lemma NothingAdded(m: Model)
    requires Sound(m)
    ensures Grown(m, m, {}, [])
  {
    hide Sound, DependsOn;
    assert EffectsOfOthers(m.effects, {}) == m.effects && HostsOfOthers(m.hosts, {}) == m.hosts;
  }

  /** With nothing left, everything but preferences and the registration counter is back. */
  lemma NothingLeft(m0: Model, m: Model)
    requires Sound(m0) && Sound(m) && Grown(m0, m, {}, [])
    requires ContributionsOwned(m0.extensions, m0.contributions) && ContributionsOwned(m.extensions, m.contributions)
    ensures m == m0.(preferred := m.preferred, router := m0.router.(preferred := m.preferred), nextOrder := m.nextOrder)
  {
    hide Sound, Grown, ContributionsOwned;
    NoExtensionLeft(m0, m);
    NoContributionLeft(m0, m);
    SameRouter(m0, m);
    SameOrder(m0, m);
  }

  lemma NoExtensionLeft(m0: Model, m: Model)
    requires Grown(m0, m, {}, [])
    ensures m.extensions == m0.extensions && m.effects == m0.effects && m.hosts == m0.hosts
    ensures m.grants == m0.grants && m.permissions == m0.permissions && m.platform == m0.platform
  {
    hide AddedLinks, AddedStates;
    assert EffectsOfOthers(m.effects, {}) == m.effects && HostsOfOthers(m.hosts, {}) == m.hosts;
    assert PermissionsOfAllOthers(m.permissions, {}) == m.permissions;
  }

  /** Ownership determines the contribution set. */
  lemma NoContributionLeft(m0: Model, m: Model)
    requires ContributionsOwned(m0.extensions, m0.contributions) && ContributionsOwned(m.extensions, m.contributions)
    requires m.extensions == m0.extensions
    ensures m.contributions == m0.contributions
  {
    hide HoldsKey;
  }

  lemma SameRouter(m0: Model, m: Model)
    requires Sound(m0) && Sound(m) && m.extensions == m0.extensions && m.platform == m0.platform
    ensures m.router == m0.router.(preferred := m.preferred)
  {
    hide Coordinated, OwnedByActive, EdgesPointBack, GrantsRequested, PermissionsRequested, ManifestsValid, ValidGrants;
    assert m.router.instances == m0.router.instances;
  }

  lemma SameOrder(m0: Model, m: Model)
    requires Sound(m0) && Sound(m) && Grown(m0, m, {}, [])
    ensures m.order == m0.order
  {
    hide Coordinated, Mirrored, OwnedByActive, GrantsRequested, PermissionsRequested, ManifestsValid, ValidGrants, DependsOn, AddedLinks, AddedStates;
  }

  // ---------- registration ----------

  ghost predicate BuiltOnActive(m: Model, e: Extension) {
    forall p | DependsOn(e, p) :: p in m.extensions && m.extensions[p].state.Active?
  }

  lemma JoinGrows(m0: Model, m: Model, added: set<Id>, started: seq<Id>, id: Id, e: Extension)
    requires Sound(m) && Grown(m0, m, added, started)
    requires id !in m.extensions && e.state.Registered? && BuiltOnActive(m, e)
    ensures Grown(m0, JoinedModel(m, id, e), added + {id}, started)
  {
    hide Sound, DependsOn;
    var n := JoinedModel(m, id, e);
    FreshHoldsNothing(m, added, id);
    forall x, p | x in added + {id} && DependsOn(n.extensions[x], p) ensures p in m0.extensions || p in started {
    }
  }

  lemma FreshHoldsNothing(m: Model, added: set<Id>, id: Id)
    requires Sound(m) && id !in m.extensions
    ensures EffectsOfOthers(m.effects, added + {id}) == EffectsOfOthers(m.effects, added)
    ensures HostsOfOthers(m.hosts, added + {id}) == HostsOfOthers(m.hosts, added)
    ensures PermissionsOfAllOthers(m.permissions, added + {id}) == PermissionsOfAllOthers(m.permissions, added)
  {
    hide Coordinated, Mirrored, EdgesPointBack, GrantsRequested, ManifestsValid, ValidGrants;
    forall o | o in m.permissions ensures o.instanceId in m.extensions {
      var p :| p in m.permissions[o];
      assert PermissionRequested(m.extensions, o, p);
    }
  }

  // ---------- permissions and preferences ----------

  lemma PermissionGrows(m0: Model, m: Model, added: set<Id>, started: seq<Id>, owner: ComponentRef, permission: Id)
    requires Grown(m0, m, added, started) && owner.instanceId in added
    ensures Grown(m0, m.(permissions := Permitted(m.permissions, owner, permission)), added, started)
  {
    hide DependsOn;
    assert PermissionsOfAllOthers(Permitted(m.permissions, owner, permission), added) == PermissionsOfAllOthers(m.permissions, added);
  }

  lemma PreferencesStayGrown(m0: Model, m: Model, added: set<Id>, started: seq<Id>, preferred: PreferenceTable)
    requires Grown(m0, m, added, started)
    ensures Grown(m0, WithPreferences(m, preferred), added, started)
  {
    hide DependsOn;
  }

  // ---------- start ----------

  lemma StartGrows(m0: Model, m: Model, added: set<Id>, started: seq<Id>, id: Id, effects: Effects, hosts: Hosts)
    requires Grown(m0, m, added, started) && id in added && id !in started && id in m.extensions && OnlyOwn(m, id, effects, hosts)
    ensures Grown(m0, StartedModel(m, id, effects, hosts), added, started + [id])
  {
    hide DependsOn, AddedLinks;
    var n := StartedModel(m, id, effects, hosts);
    OwnAreAdded(m, added, id, effects, hosts);
    StartedLinks(m0, m, added, started, id, n.extensions);
    assert AddedLinks(m0, n, added, started + [id]) by { LinksOfExtensions(m0, m, n, added, started + [id]); }
  }

  lemma OwnAreAdded(m: Model, added: set<Id>, id: Id, effects: Effects, hosts: Hosts)
    requires OnlyOwn(m, id, effects, hosts) && id in added
    ensures EffectsOfOthers(effects, added) == EffectsOfOthers(m.effects, added)
    ensures HostsOfOthers(hosts, added) == HostsOfOthers(m.hosts, added)
  {
    forall e ensures e in EffectsOfOthers(effects, added) <==> e in EffectsOfOthers(m.effects, added) {
      assert e in EffectsOfOthers(effects, {id}) <==> e in EffectsOfOthers(m.effects, {id});
    }
    forall e | e in EffectsOfOthers(effects, added) ensures effects[e] == m.effects[e] {
      assert e in EffectsOfOthers(effects, {id});
    }
    forall t ensures t in HostsOfOthers(hosts, added) <==> t in HostsOfOthers(m.hosts, added) {
      assert t in HostsOfOthers(hosts, {id}) <==> t in HostsOfOthers(m.hosts, {id});
    }
    forall t | t in HostsOfOthers(hosts, added) ensures hosts[t] == m.hosts[t] {
      assert t in HostsOfOthers(hosts, {id});
    }
  }

  lemma StartedLinks(m0: Model, m: Model, added: set<Id>, started: seq<Id>, id: Id, extensions: Extensions)
    requires Grown(m0, m, added, started) && id in added && id !in started
    requires extensions == WithStates(m.extensions, {id}, Active)
    ensures AddedLinks(m0, m.(extensions := extensions), added, started + [id])
  {
    var longer := started + [id];
    assert forall x | x in m.extensions :: extensions[x].dependencies == m.extensions[x].dependencies;
    assert forall x, p | x in m.extensions :: DependsOn(extensions[x], p) <==> DependsOn(m.extensions[x], p);
    hide DependsOn;
    forall i, j | 0 <= i < |longer| && 0 <= j < |longer| && longer[i] in extensions && DependsOn(extensions[longer[i]], longer[j])
      ensures j < i
    {
      assert longer[i] in added;
      assert longer[j] in m0.extensions || longer[j] in started;
      assert longer[j] != id;
    }
  }

  lemma LinksOfExtensions(m0: Model, m: Model, n: Model, added: set<Id>, started: seq<Id>)
    requires AddedLinks(m0, m.(extensions := n.extensions), added, started)
    ensures AddedLinks(m0, n, added, started)
  {
    hide DependsOn;
  }

  // ---------- rollback ----------

  /** Nobody was built on an added instance that never started. */
  lemma UnstartedHasNoDependents(m0: Model, m: Model, added: set<Id>, started: seq<Id>, id: Id)
    requires Sound(m0) && Grown(m0, m, added, started) && id in added && id !in started
    ensures DependentsOf(m.extensions, id) == {}
  {
    hide Sound, DependsOn;
    forall x ensures x !in DependentsOf(m.extensions, id) {
      OldDependOnOld(m0, m, added, x, id);
    }
  }

  lemma OldDependOnOld(m0: Model, m: Model, added: set<Id>, x: Id, p: Id)
    requires Sound(m0) && KeepsOthers(m0, m, added)
    ensures x in m0.extensions && DependsOn(m.extensions[x], p) ==> p in m0.extensions
  {
    hide Coordinated, Mirrored, OwnedByActive, GrantsRequested, PermissionsRequested, ManifestsValid, ValidGrants, DependsOn;
  }

  /** Nobody left was built on the instance that started last. */
  lemma LastStartedHasNoDependents(m0: Model, m: Model, started: seq<Id>)
    requires Sound(m0) && |started| > 0 && Grown(m0, m, Elements(started), started)
    ensures DependentsOf(m.extensions, started[|started| - 1]) == {}
  {
    hide Sound, DependsOn;
    var id := started[|started| - 1];
    assert id in Elements(started);
    forall x ensures x !in DependentsOf(m.extensions, id) {
      OldDependOnOld(m0, m, Elements(started), x, id);
      if x in Elements(started) {
        var i :| 0 <= i < |started| && started[i] == x;
        assert !DependsOn(m.extensions[started[i]], started[|started| - 1]);
      }
    }
  }

  lemma RetireUnstarted(m0: Model, m: Model, added: set<Id>, started: seq<Id>, id: Id)
    requires Sound(m0) && Sound(m) && Grown(m0, m, added, started) && id in added && id !in started
    ensures id in m.extensions && Grown(m0, RemovedModel(m, id), added - {id}, started)
  {
    hide Sound, KeepsOthers, AddedLinks;
    UnstartedKeepsOthers(m0, m, added, id);
    UnstartedKeepsLinks(m0, m, RemovedModel(m, id), added, started, id);
  }

  lemma UnstartedKeepsOthers(m0: Model, m: Model, added: set<Id>, id: Id)
    requires Sound(m0) && Sound(m) && KeepsOthers(m0, m, added) && id in added && id in m.extensions && !m.extensions[id].state.Active?
    ensures KeepsOthers(m0, RemovedModel(m, id), added - {id})
  {
    hide Sound, EffectsOfOthers, HostsOfOthers, PermissionsOfOthers, PermissionsOfAllOthers, GrantsOfOthers, KeysOf;
    AddedHoldsNoGrants(m0, id);
    InactiveOwnsNothingSound(m, id);
    OthersCompose(m.effects, m.hosts, {id}, added - {id});
    assert {id} + (added - {id}) == added;
    PermissionsCompose(m.permissions, id, added);
  }

  lemma UnstartedKeepsLinks(m0: Model, m: Model, n: Model, added: set<Id>, started: seq<Id>, id: Id)
    requires AddedLinks(m0, m, added, started) && n.extensions == m.extensions - {id}
    ensures AddedLinks(m0, n, added - {id}, started)
  {
    hide DependsOn;
  }

  lemma InactiveOwnsNothingSound(m: Model, id: Id)
    requires Sound(m) && id in m.extensions && !m.extensions[id].state.Active?
    ensures EffectsOfOthers(m.effects, {id}) == m.effects && HostsOfOthers(m.hosts, {id}) == m.hosts
  {
    hide Coordinated, Mirrored, EdgesPointBack, GrantsRequested, PermissionsRequested, ManifestsValid, ValidGrants;
    InactiveOwnsNothing(m, id);
  }

  lemma AddedHoldsNoGrants(m0: Model, id: Id)
    requires Sound(m0) && id !in m0.extensions
    ensures GrantsOfOthers(m0.grants, id) == m0.grants
  {
    hide Coordinated, Mirrored, OwnedByActive, EdgesPointBack, PermissionsRequested, ManifestsValid;
    forall owner | owner in m0.grants ensures owner.instanceId != id {
      assert Requested(m0.extensions, owner, m0.grants[owner][0]);
    }
  }

  lemma PermissionsCompose(permissions: Permissions, id: Id, added: set<Id>)
    requires id in added
    ensures PermissionsOfAllOthers(PermissionsOfOthers(permissions, id), added - {id}) == PermissionsOfAllOthers(permissions, added)
  {
  }

  lemma RetireStarted(m0: Model, m: Model, started: seq<Id>)
    requires Sound(m0) && |started| > 0 && Grown(m0, m, Elements(started), started)
    ensures var id := started[|started| - 1];
      && id in m.extensions && m.extensions[id].state.Active?
      && Grown(m0, RemovedModel(StoppedAll(m, {id}), id), Elements(started[..|started| - 1]), started[..|started| - 1])
  {
    hide Sound, StoppedAll, RemovedModel, KeepsOthers, AddedLinks, AddedStates;
    var id, rest := started[|started| - 1], started[..|started| - 1];
    assert id in started && id in Elements(started);
    assert started == rest + [id];
    assert Elements(started) - {id} == Elements(rest) && id !in rest by { LastIsNew(m, started); }
    LastIsActive(m, started);
    RetiredExtensions(m, id);
    RetireKeepsOthers(m0, m, Elements(started), id);
    RetireKeepsStates(m, RemovedModel(StoppedAll(m, {id}), id), started, rest, id);
    RetireKeepsLinks(m0, m, RemovedModel(StoppedAll(m, {id}), id), started, rest, id);
  }

  lemma LastIsNew(m: Model, started: seq<Id>)
    requires |started| > 0 && AddedStates(m, Elements(started), started)
    ensures var id, rest := started[|started| - 1], started[..|started| - 1];
      Elements(started) - {id} == Elements(rest) && id !in rest
  {
    var id, rest := started[|started| - 1], started[..|started| - 1];
    assert started == rest + [id];
  }

  lemma LastIsActive(m: Model, started: seq<Id>)
    requires |started| > 0 && AddedStates(m, Elements(started), started)
    ensures var id := started[|started| - 1]; id in m.extensions && m.extensions[id].state.Active?
  {
    assert started[|started| - 1] in started;
  }

  lemma RetiredExtensions(m: Model, id: Id)
    requires id in m.extensions
    ensures id in StoppedAll(m, {id}).extensions
    ensures var n := RemovedModel(StoppedAll(m, {id}), id);
      n.extensions.Keys == m.extensions.Keys - {id} && forall x | x in n.extensions :: n.extensions[x] == m.extensions[x]
  {
    RetiredOthers(m, id, WithStates(m.extensions, {id}, Stopped) - {id});
  }

  lemma RetireKeepsStates(m: Model, n: Model, started: seq<Id>, rest: seq<Id>, id: Id)
    requires AddedStates(m, Elements(started), started) && started == rest + [id] && id !in rest
    requires n.extensions.Keys == m.extensions.Keys - {id} && forall x | x in n.extensions :: n.extensions[x] == m.extensions[x]
    ensures AddedStates(n, Elements(rest), rest)
  {
    assert forall x :: x in Elements(rest) <==> x in rest;
    assert forall i | 0 <= i < |rest| :: rest[i] == started[i];
  }

  lemma RetireKeepsLinks(m0: Model, m: Model, n: Model, started: seq<Id>, rest: seq<Id>, id: Id)
    requires AddedLinks(m0, m, Elements(started), started) && AddedStates(m, Elements(started), started)
    requires started == rest + [id] && id !in rest
    requires n.extensions.Keys == m.extensions.Keys - {id} && forall x | x in n.extensions :: n.extensions[x] == m.extensions[x]
    ensures AddedLinks(m0, n, Elements(rest), rest)
  {
    hide DependsOn;
    forall x, p | x in Elements(rest) && x in n.extensions && DependsOn(n.extensions[x], p) ensures p in m0.extensions || p in rest {
      assert x in started && x in Elements(started);
      var i :| 0 <= i < |rest| && rest[i] == x;
      assert started[i] == x && started[|rest|] == id;
      assert !DependsOn(m.extensions[started[i]], started[|rest|]);
    }
    forall i, j | 0 <= i < |rest| && 0 <= j < |rest| && rest[i] in n.extensions && DependsOn(n.extensions[rest[i]], rest[j]) ensures j < i {
      assert started[i] == rest[i] && started[j] == rest[j];
    }
  }

  lemma RetireKeepsOthers(m0: Model, m: Model, added: set<Id>, id: Id)
    requires Sound(m0) && KeepsOthers(m0, m, added) && id in added && id in m.extensions
    ensures id in StoppedAll(m, {id}).extensions && KeepsOthers(m0, RemovedModel(StoppedAll(m, {id}), id), added - {id})
  {
    hide Sound, EffectsOfOthers, HostsOfOthers, PermissionsOfOthers, PermissionsOfAllOthers, GrantsOfOthers, WithActivity, KeysOf, KeysOfAll;
    AddedHoldsNoGrants(m0, id);
    OthersCompose(m.effects, m.hosts, {id}, added - {id});
    OthersCompose(m.effects, m.hosts, {id}, {id});
    assert {id} + {id} == {id} && {id} + (added - {id}) == added;
    PermissionsCompose(m.permissions, id, added);
    RetiredExtensions(m, id);
  }

  lemma RetiredOthers(m: Model, id: Id, extensions: Extensions)
    requires extensions == WithStates(m.extensions, {id}, Stopped) - {id}
    ensures extensions.Keys == m.extensions.Keys - {id}
    ensures forall x | x in extensions :: extensions[x] == m.extensions[x]
  {
  }
}
