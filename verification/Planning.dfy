/** Activation plans of a batch against the current engine view, and what a batch plan promises for
    starting its instances one at a time. */
module Planning {
  import opened Identifiers
  import opened SecretPolicy
  import opened Composition
  import opened DependencyGraph
  import opened Activation
  import opened Scopes

  /** What planning reads: declarations, host policy, grants, and which instances are active. */
  datatype View = View(registry: Registry, platform: PlatformTable, preferred: PreferenceTable,
                       grants: Grants, active: set<Id>)

  ghost predicate Known(v: View, batch: seq<Id>) {
    forall id | id in batch :: id in v.registry
  }

  /** The scopes of a batch, in order of first appearance. */
  ghost function ScopesOf(v: View, batch: seq<Id>): (scopes: seq<Id>)
    requires Known(v, batch)
    ensures forall s :: s in scopes <==> exists id :: id in batch && v.registry[id].scopeId == s
  {
    if batch == [] then []
    else
      var last := batch[|batch| - 1];
      assert batch == batch[..|batch| - 1] + [last];
      var rest := ScopesOf(v, batch[..|batch| - 1]);
      if v.registry[last].scopeId in rest then rest else rest + [v.registry[last].scopeId]
  }

  ghost function ScopeTopology(v: View, scope: Id, among: set<Id>): Topology {
    TopologyOfScope(v.registry, v.platform, v.preferred, scope, among)
  }

  ghost predicate Defines(registry: Registry, scope: Id, among: set<Id>, contract: ContractKey, owner: ComponentRef) {
    exists id, o :: Member(registry, scope, among, id) && o in registry[id].definitions
                    && o.definition.contract == contract && o.owner == owner
  }

  ghost function DefinitionOwners(registry: Registry, scope: Id, among: set<Id>, contract: ContractKey): (s: set<ComponentRef>)
    ensures forall owner :: owner in s <==> Defines(registry, scope, among, contract, owner)
  {
    set id, o | id in among && id in registry && Member(registry, scope, among, id)
                && o in registry[id].definitions && o.definition.contract == contract :: o.owner
  }

  /** The ordering pair a required binding adds on behalf of its contract's definition owner. */
  ghost predicate DefinitionPair(v: View, scope: Id, among: set<Id>, b: ContractBinding, pair: Dependency) {
    && b.required && b.contract !in PlatformIn(v.platform, scope)
    && var owners := DefinitionOwners(v.registry, scope, among, b.contract);
       owners != {} && pair == (LeastRef(owners).instanceId, b.consumer.instanceId)
  }

  ghost predicate DefinitionPairs(v: View, scope: Id, among: set<Id>, bindings: seq<ContractBinding>, pairs: set<Dependency>) {
    forall pair :: pair in pairs <==> exists b :: b in bindings && DefinitionPair(v, scope, among, b, pair)
  }

  /** Resolution of every scope of the batch, appended scope by scope. */
  ghost predicate Gathered(v: View, among: set<Id>, scopes: seq<Id>, combined: Snapshot, extra: set<Dependency>) {
    if scopes == [] then combined == Snapshot([], []) && extra == {}
    else exists rest, restExtra, head, headExtra ::
      Gathered(v, among, scopes[..|scopes| - 1], rest, restExtra)
      && GatheredOne(v, among, scopes[|scopes| - 1], head, headExtra)
      && combined == Snapshot(rest.bindings + head.bindings, rest.unresolved + head.unresolved)
      && extra == restExtra + headExtra
  }

  ghost predicate GatheredOne(v: View, among: set<Id>, scope: Id, head: Snapshot, extra: set<Dependency>) {
    IsSnapshot(ScopeTopology(v, scope, among), v.grants, head) && DefinitionPairs(v, scope, among, head.bindings, extra)
  }

  /** `r` is what planning the batch yields. */
  ghost predicate IsPlan(v: View, batch: seq<Id>, r: PlanResult)
    requires Known(v, batch)
  {
    exists combined, extra ::
      Gathered(v, v.active + Elements(batch), ScopesOf(v, batch), combined, Elements(extra))
      && Describes(combined, batch, extra, r)
  }

  // ---------- reading a gathered resolution ----------

  /** A consumer of one of the gathered scopes shows up with its outcome and its definition pair. */
  lemma {:induction false} GatheredReports(v: View, among: set<Id>, scopes: seq<Id>, combined: Snapshot, extra: set<Dependency>,
                                           scope: Id, c: Consumer)
    requires Gathered(v, among, scopes, combined, extra) && scope in scopes
    requires c in ScopeTopology(v, scope, among).consumers
    ensures match Outcome(ScopeTopology(v, scope, among), v.grants, c)
      case Selected(providers) =>
        var b := ContractBinding(c.owner, c.contract, c.required, providers);
        b in combined.bindings && forall pair | DefinitionPair(v, scope, among, b, pair) :: pair in extra
      case Failed(reason) =>
        Unresolved(c.owner, c.contract, c.required, reason) in combined.unresolved
  {
    hide IsSnapshot, Outcome, DefinitionPair;
    var rest, restExtra, head, headExtra :|
      Gathered(v, among, scopes[..|scopes| - 1], rest, restExtra)
      && GatheredOne(v, among, scopes[|scopes| - 1], head, headExtra)
      && combined == Snapshot(rest.bindings + head.bindings, rest.unresolved + head.unresolved)
      && extra == restExtra + headExtra;
    if scope == scopes[|scopes| - 1] {
      HeadReports(v, among, scope, head, headExtra, c);
    } else {
      GatheredReports(v, among, scopes[..|scopes| - 1], rest, restExtra, scope, c);
    }
  }

  lemma HeadReports(v: View, among: set<Id>, scope: Id, head: Snapshot, extra: set<Dependency>, c: Consumer)
    requires GatheredOne(v, among, scope, head, extra) && c in ScopeTopology(v, scope, among).consumers
    ensures match Outcome(ScopeTopology(v, scope, among), v.grants, c)
      case Selected(providers) =>
        var b := ContractBinding(c.owner, c.contract, c.required, providers);
        b in head.bindings && forall pair | DefinitionPair(v, scope, among, b, pair) :: pair in extra
      case Failed(reason) =>
        Unresolved(c.owner, c.contract, c.required, reason) in head.unresolved
  {
    hide Outcome, DefinitionPair, ScopeTopology, StrictlySorted;
    var t := ScopeTopology(v, scope, among);
    match Outcome(t, v.grants, c) {
      case Selected(providers) =>
        assert Binds(t, v.grants, c, ContractBinding(c.owner, c.contract, c.required, providers));
      case Failed(reason) =>
        assert Leaves(t, v.grants, c, Unresolved(c.owner, c.contract, c.required, reason));
    }
  }

  /** Every unresolved entry stems from a consumer of a gathered scope. */
  lemma {:induction false} UnresolvedStemsFrom(v: View, among: set<Id>, scopes: seq<Id>, combined: Snapshot, extra: set<Dependency>,
                                               u: Unresolved) returns (scope: Id, c: Consumer)
    requires Gathered(v, among, scopes, combined, extra) && u in combined.unresolved
    ensures scope in scopes && c in ScopeTopology(v, scope, among).consumers
    ensures Leaves(ScopeTopology(v, scope, among), v.grants, c, u)
  {
    hide Leaves, Outcome, DefinitionPairs, StrictlySorted, ScopeTopology;
    var rest, restExtra, head, headExtra :|
      Gathered(v, among, scopes[..|scopes| - 1], rest, restExtra)
      && GatheredOne(v, among, scopes[|scopes| - 1], head, headExtra)
      && combined == Snapshot(rest.bindings + head.bindings, rest.unresolved + head.unresolved)
      && extra == restExtra + headExtra;
    if u in head.unresolved {
      scope := scopes[|scopes| - 1];
      c :| c in ScopeTopology(v, scope, among).consumers && Leaves(ScopeTopology(v, scope, among), v.grants, c, u);
    } else {
      scope, c := UnresolvedStemsFrom(v, among, scopes[..|scopes| - 1], rest, restExtra, u);
    }
  }

  // ---------- a batch plan makes every later singleton plan succeed ----------

  ghost function After(v: View, started: seq<Id>): View {
    v.(active := v.active + Elements(started))
  }

  /** In the batch, every required binding of `order[k]` is served by instances that are already active
      when `order[k]` starts. */
  lemma ProvidersStartEarlier(v: View, batch: seq<Id>, order: seq<Id>, k: nat, combined: Snapshot, extra: seq<Dependency>,
                              provider: Id)
    requires Describes(combined, batch, extra, Planned(order)) && k < |order|
    requires (provider, order[k]) in AllPairs(combined, extra)
    requires provider in v.active + Elements(batch)
    ensures provider in v.active + Elements(order[..k + 1])
  {
    hide AllPairs;
    PlanRespectsDependencies(combined, batch, extra, order);
    if provider !in v.active && provider != order[k] {
      assert provider in Elements(order);
      var i :| 0 <= i < |order| && order[i] == provider;
      assert i < k;
      assert order[..k + 1][i] == provider;
    } else if provider == order[k] {
      assert order[..k + 1][k] == provider;
    }
  }

  /** The binding the batch gave a required consumer of `order[k]` is still what that consumer gets once
      only the earlier instances are active. */
  lemma RequiredBindingHolds(v: View, batch: seq<Id>, order: seq<Id>, k: nat, combined: Snapshot, extra: seq<Dependency>, c: Consumer)
    requires Coordinated(v.registry, v.platform) && Known(v, batch)
    requires Gathered(v, v.active + Elements(batch), ScopesOf(v, batch), combined, Elements(extra))
    requires Describes(combined, batch, extra, Planned(order)) && k < |order| && order[k] in batch
    requires c in v.registry[order[k]].consumers && c.required
    ensures var scope := v.registry[order[k]].scopeId;
      var larger, smaller := v.active + Elements(batch), v.active + Elements(order[..k + 1]);
      && Outcome(ScopeTopology(v, scope, larger), v.grants, c).Selected?
      && Outcome(ScopeTopology(v, scope, smaller), v.grants, c) == Outcome(ScopeTopology(v, scope, larger), v.grants, c)
  {
    hide Describes, Outcome, Gathered, IsSnapshot, AllPairs, Coordinated, DefinitionPair;
    var x := order[k];
    var scope := v.registry[x].scopeId;
    var larger, smaller := v.active + Elements(batch), v.active + Elements(order[..k + 1]);
    assert Member(v.registry, scope, larger, x);
    assert c in ScopeTopology(v, scope, larger).consumers;
    GatheredReports(v, larger, ScopesOf(v, batch), combined, Elements(extra), scope, c);
    PlanRespectsDependencies(combined, batch, extra, order);
    assert c.owner.instanceId == x by { Owns(v, x); }
    var outcome := Outcome(ScopeTopology(v, scope, larger), v.grants, c);
    match outcome {
      case Failed(reason) =>
        NothingRequiredUnresolved(combined, batch, extra, order, Unresolved(c.owner, c.contract, c.required, reason));
        assert false;
      case Selected(providers) =>
        var b := ContractBinding(c.owner, c.contract, c.required, providers);
        forall q | q in providers ensures q.instanceId in smaller {
          RequiredProviderPair(combined, extra, b, q);
          SelectedAreMembers(v, scope, larger, c, q);
          ProvidersStartEarlier(v, batch, order, k, combined, extra, q.instanceId);
        }
        assert smaller <= larger;
        DefinitionStaysNear(v, batch, order, k, combined, extra, scope, c, b);
        BindingSurvives(v.registry, v.platform, v.preferred, v.grants, scope, larger, smaller, c);
    }
  }

  lemma NothingRequiredUnresolved(combined: Snapshot, batch: seq<Id>, extra: seq<Dependency>, order: seq<Id>, u: Unresolved)
    requires Describes(combined, batch, extra, Planned(order)) && u in combined.unresolved
    ensures !u.required || u.consumer.instanceId !in batch
  {
    assert !Blocks(u, batch);
  }

  lemma Owns(v: View, x: Id)
    requires Coordinated(v.registry, v.platform) && x in v.registry
    ensures forall c | c in v.registry[x].consumers :: c.owner.instanceId == x
    ensures forall o | o in v.registry[x].definitions :: o.owner.instanceId == x
    ensures forall p | p in v.registry[x].providers :: p.owner.instanceId == x
  {
    assert OwnDeclarations(x, v.registry[x]);
  }

  lemma RequiredProviderPair(combined: Snapshot, extra: seq<Dependency>, b: ContractBinding, q: ComponentRef)
    requires b in combined.bindings && b.required && q in b.providers
    ensures (q.instanceId, b.consumer.instanceId) in AllPairs(combined, extra)
  {
    assert (q.instanceId, b.consumer.instanceId) in PairsOf(b);
  }

  lemma SelectedAreMembers(v: View, scope: Id, among: set<Id>, c: Consumer, q: ComponentRef)
    requires Coordinated(v.registry, v.platform)
    requires Outcome(ScopeTopology(v, scope, among), v.grants, c).Selected?
    requires q in Outcome(ScopeTopology(v, scope, among), v.grants, c).providers
    ensures q.instanceId in among && q.instanceId in v.registry && v.registry[q.instanceId].scopeId == scope
  {
    var t := ScopeTopology(v, scope, among);
    var eligible := EligibleOwners(t.providers, c.contract, v.grants);
    assert q in eligible by {
      if DefinitionOf(t.definitions, c.contract).resolution.Multiple? {
        assert q in Elements(Listing(eligible));
      }
    }
    hide EligibleOwners;
    var p :| p in t.providers && p.contract == c.contract && p.owner == q && ProviderEligible(v.grants, p);
    var id :| Member(v.registry, scope, among, id) && p in v.registry[id].providers;
    Owns(v, id);
  }

  /** The contract of a required binding is still defined once only the earlier instances are active. */
  lemma DefinitionStaysNear(v: View, batch: seq<Id>, order: seq<Id>, k: nat, combined: Snapshot, extra: seq<Dependency>,
                            scope: Id, c: Consumer, b: ContractBinding)
    requires Coordinated(v.registry, v.platform) && Known(v, batch)
    requires Describes(combined, batch, extra, Planned(order)) && k < |order| && c.owner.instanceId == order[k]
    requires b.required && b.contract == c.contract && b.consumer == c.owner
    requires forall pair | DefinitionPair(v, scope, v.active + Elements(batch), b, pair) :: pair in Elements(extra)
    requires Outcome(ScopeTopology(v, scope, v.active + Elements(batch)), v.grants, c).Selected?
    ensures Defined(DefinitionsOf(v.registry, scope, v.active + Elements(order[..k + 1])) + PlatformIn(v.platform, scope).Values, c.contract)
  {
    hide Describes, Coordinated, SelectFrom;
    var larger, smaller := v.active + Elements(batch), v.active + Elements(order[..k + 1]);
    if c.contract in PlatformIn(v.platform, scope) {
      PlatformDefines(v, scope, c.contract);
    } else {
      var owners := DefinitionOwners(v.registry, scope, larger, c.contract);
      var d :| d in ScopeTopology(v, scope, larger).definitions && d.contract == c.contract;
      if d in PlatformIn(v.platform, scope).Values {
        PlatformValuesKeyed(v, scope, d);
        assert false;
      }
      var id0, o0 :| Member(v.registry, scope, larger, id0) && o0 in v.registry[id0].definitions && o0.definition == d;
      assert o0.owner in owners;
      var owner := LeastRef(owners);
      assert DefinitionPair(v, scope, larger, b, (owner.instanceId, b.consumer.instanceId));
      var id, o :| Member(v.registry, scope, larger, id) && o in v.registry[id].definitions
                   && o.definition.contract == c.contract && o.owner == owner;
      Owns(v, id);
      ProvidersStartEarlier(v, batch, order, k, combined, extra, owner.instanceId);
      assert Member(v.registry, scope, smaller, id);
      assert DefinedBy(v.registry, scope, smaller, o.definition);
    }
  }

  lemma PlatformDefines(v: View, scope: Id, contract: ContractKey)
    requires Coordinated(v.registry, v.platform) && contract in PlatformIn(v.platform, scope)
    ensures exists d :: d in PlatformIn(v.platform, scope).Values && d.contract == contract
  {
    assert PlatformIn(v.platform, scope)[contract] in PlatformIn(v.platform, scope).Values;
  }

  lemma PlatformValuesKeyed(v: View, scope: Id, d: Definition)
    requires Coordinated(v.registry, v.platform) && d in PlatformIn(v.platform, scope).Values
    ensures d.contract in PlatformIn(v.platform, scope)
  {
    var contract :| contract in PlatformIn(v.platform, scope) && PlatformIn(v.platform, scope)[contract] == d;
  }

  /** If planning a batch yields an order, then starting the instances in that order never meets a
      planning refusal: planning `order[k]` alone, with only the earlier ones active, yields `order[k]`. */
  lemma BatchPlanMakesEveryStartPlannable(v: View, batch: seq<Id>, order: seq<Id>, k: nat, r: PlanResult)
    requires Coordinated(v.registry, v.platform) && Known(v, batch)
    requires IsPlan(v, batch, Planned(order)) && k < |order|
    requires order[k] in v.registry && IsPlan(After(v, order[..k]), [order[k]], r)
    ensures r == Planned([order[k]])
  {
    hide Describes, Gathered, Coordinated;
    var combined, extra :| Gathered(v, v.active + Elements(batch), ScopesOf(v, batch), combined, Elements(extra))
                           && Describes(combined, batch, extra, Planned(order));
    PlanRespectsDependencies(combined, batch, extra, order);
    var x := order[k];
    assert x in Elements(batch);
    var w := After(v, order[..k]);
    var single, singleExtra :| Gathered(w, w.active + Elements([x]), ScopesOf(w, [x]), single, Elements(singleExtra))
                               && Describes(single, [x], singleExtra, r);
    var smaller := v.active + Elements(order[..k + 1]);
    assert w.active + Elements([x]) == smaller by {
      assert order[..k + 1] == order[..k] + [x];
    }
    assert forall scope :: ScopeTopology(w, scope, smaller) == ScopeTopology(v, scope, smaller);
    forall u | u in single.unresolved ensures !Blocks(u, [x]) {
      if Blocks(u, [x]) {
        var scope, c := UnresolvedStemsFrom(w, smaller, ScopesOf(w, [x]), single, Elements(singleExtra), u);
        var id :| Member(w.registry, scope, smaller, id) && c in w.registry[id].consumers;
        Owns(v, id);
        assert id == x;
        RequiredBindingHolds(v, batch, order, k, combined, extra, c);
        assert false;
      }
    }
    SingletonIsPlanned(single, x, singleExtra, r);
  }

  lemma SingletonIsPlanned(single: Snapshot, x: Id, extra: seq<Dependency>, r: PlanResult)
    requires Describes(single, [x], extra, r)
    requires forall u | u in single.unresolved :: !Blocks(u, [x])
    ensures r == Planned([x])
  {
    hide AllPairs;
    var pairs := AllPairs(single, extra);
    assert Distinct([x]) && NothingBlocks(single.unresolved, [x]);
    var edges := EdgesOf(pairs, [x]);
    assert edges == {} by {
      forall e ensures e !in edges {
        assert !EdgeOf(pairs, [x], e);
      }
    }
    match r {
      case Planned(order) =>
        PlanRespectsDependencies(single, [x], extra, order);
        assert order[0] in Elements([x]);
      case Refused(error) =>
        var path :| Cycle(edges, path) && IndicesOf([x], path, error.instances);
        CycleNeedsEdge(edges, path);
        assert false;
    }
  }

  lemma CycleNeedsEdge(edges: set<Edge>, path: seq<nat>)
    requires Cycle(edges, path)
    ensures edges != {}
  {
    assert (path[1], path[0]) in edges;
  }

  ghost predicate RefusedAlone(v: View, id: Id) {
    id in v.registry && exists r :: IsPlan(v, [id], r) && r.Refused?
  }

  /** If every instance of a non-empty batch is refused on its own, the batch is refused as well. */
  lemma SinglesRefusedThenBatchRefused(v: View, batch: seq<Id>, r: PlanResult)
    requires Coordinated(v.registry, v.platform) && Known(v, batch) && batch != []
    requires forall id | id in batch :: RefusedAlone(v, id)
    requires IsPlan(v, batch, r)
    ensures r.Refused?
  {
    hide IsPlan, Coordinated;
    if r.Planned? {
      PlanListsBatch(v, batch, r.order);
      var x := r.order[0];
      assert RefusedAlone(v, x);
      var single :| IsPlan(v, [x], single) && single.Refused?;
      assert After(v, r.order[..0]) == v;
      BatchPlanMakesEveryStartPlannable(v, batch, r.order, 0, single);
      assert false;
    }
  }

  lemma PlanListsBatch(v: View, batch: seq<Id>, order: seq<Id>)
    requires Known(v, batch) && IsPlan(v, batch, Planned(order))
    ensures Distinct(order) && |order| == |batch| && forall id :: id in order <==> id in batch
  {
    hide Gathered, Describes;
    var combined, extra :| Gathered(v, v.active + Elements(batch), ScopesOf(v, batch), combined, Elements(extra))
                           && Describes(combined, batch, extra, Planned(order));
    PlanRespectsDependencies(combined, batch, extra, order);
    assert forall id :: id in order <==> id in Elements(order);
    assert forall id :: id in batch <==> id in Elements(batch);
  }
}
