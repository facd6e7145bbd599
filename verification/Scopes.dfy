/** Declarations of registered instances, grouped by runtime scope, and the activation plans they give. */
module Scopes {
  import opened Identifiers
  import opened SecretPolicy
  import opened Composition
  import opened DependencyGraph
  import opened Activation

  datatype OwnedDefinition = OwnedDefinition(owner: ComponentRef, definition: Definition)

  /** The contract endpoints one instance declared while it was registered. */
  datatype Declarations = Declarations(scopeId: Id, definitions: seq<OwnedDefinition>,
                                       providers: seq<Provider>, consumers: seq<Consumer>)

  type Registry = map<Id, Declarations>
  type PlatformTable = map<Id, map<ContractKey, Definition>>
  type PreferenceTable = map<Id, Preferences>

  function PlatformIn(platform: PlatformTable, scope: Id): map<ContractKey, Definition> {
    if scope in platform then platform[scope] else map[]
  }

  function PreferencesIn(preferred: PreferenceTable, scope: Id): Preferences {
    if scope in preferred then preferred[scope] else map[]
  }

  // ---------- what an instance may declare ----------

  ghost predicate OwnDeclarations(id: Id, d: Declarations) {
    && (forall o | o in d.definitions :: o.owner.instanceId == id)
    && (forall p | p in d.providers :: p.owner.instanceId == id)
    && (forall c | c in d.consumers :: c.owner.instanceId == id)
    && DistinctProviders(d.providers) && DistinctConsumers(d.consumers)
  }

  /** Two declarations in one scope never disagree about a contract. */
  ghost predicate Agree(a: Declarations, b: Declarations) {
    a.scopeId == b.scopeId ==>
      forall o, p | o in a.definitions && p in b.definitions && o.definition.contract == p.definition.contract ::
        o.definition == p.definition
  }

  /** An instance never redefines a contract the platform owns in its scope. */
  ghost predicate LeavesPlatform(platform: PlatformTable, d: Declarations) {
    forall o | o in d.definitions :: o.definition.contract !in PlatformIn(platform, d.scopeId)
  }

  ghost predicate PlatformKeyed(platform: PlatformTable) {
    forall scope, contract | scope in platform && contract in platform[scope] ::
      platform[scope][contract].contract == contract
  }

  /** The registration invariant of all declared endpoints. */
  ghost predicate Coordinated(registry: Registry, platform: PlatformTable) {
    && PlatformKeyed(platform)
    && (forall id | id in registry :: OwnDeclarations(id, registry[id]) && LeavesPlatform(platform, registry[id]))
    && (forall a, b | a in registry && b in registry :: Agree(registry[a], registry[b]))
  }

  // ---------- the topology of one scope ----------

  ghost predicate Member(registry: Registry, scope: Id, among: set<Id>, id: Id) {
    id in among && id in registry && registry[id].scopeId == scope
  }

  ghost predicate DefinedBy(registry: Registry, scope: Id, among: set<Id>, d: Definition) {
    exists id, o :: Member(registry, scope, among, id) && o in registry[id].definitions && o.definition == d
  }

  ghost function DefinitionsOf(registry: Registry, scope: Id, among: set<Id>): (s: set<Definition>)
    ensures forall d :: d in s <==> DefinedBy(registry, scope, among, d)
  {
    set id, o | id in among && id in registry && Member(registry, scope, among, id) && o in registry[id].definitions :: o.definition
  }

  ghost function ProvidersOf(registry: Registry, scope: Id, among: set<Id>): (s: set<Provider>)
    ensures forall p :: p in s <==> exists id :: Member(registry, scope, among, id) && p in registry[id].providers
  {
    set id, p | id in among && id in registry && Member(registry, scope, among, id) && p in registry[id].providers :: p
  }

  ghost function ConsumersOf(registry: Registry, scope: Id, among: set<Id>): (s: set<Consumer>)
    ensures forall c :: c in s <==> exists id :: Member(registry, scope, among, id) && c in registry[id].consumers
  {
    set id, c | id in among && id in registry && Member(registry, scope, among, id) && c in registry[id].consumers :: c
  }

  /** All that takes part when the instances in `among` are resolved in one scope. */
  ghost function TopologyOfScope(registry: Registry, platform: PlatformTable, preferred: PreferenceTable,
                                 scope: Id, among: set<Id>): Topology
  {
    Topology(DefinitionsOf(registry, scope, among) + PlatformIn(platform, scope).Values,
             ProvidersOf(registry, scope, among), ConsumersOf(registry, scope, among),
             PreferencesIn(preferred, scope))
  }

  /** A platform contract rules its scope: no instance there defines it, and it is resolved as the platform defines it. */
  lemma PlatformContractRules(registry: Registry, platform: PlatformTable, preferred: PreferenceTable, scope: Id, among: set<Id>,
                              contract: ContractKey)
    requires Coordinated(registry, platform) && scope in platform && contract in platform[scope]
    ensures forall id, o | id in registry && registry[id].scopeId == scope && o in registry[id].definitions :: o.definition.contract != contract
    ensures var definitions := TopologyOfScope(registry, platform, preferred, scope, among).definitions;
      Defined(definitions, contract) && DefinitionOf(definitions, contract) == platform[scope][contract]
  {
    forall id, o | id in registry && registry[id].scopeId == scope && o in registry[id].definitions
      ensures o.definition.contract != contract
    {
      assert LeavesPlatform(platform, registry[id]);
    }
    var t := TopologyOfScope(registry, platform, preferred, scope, among);
    ScopeIsWellFormed(registry, platform, preferred, scope, among);
    var d := platform[scope][contract];
    assert contract in PlatformIn(platform, scope).Keys && d in PlatformIn(platform, scope).Values;
    assert d in t.definitions && d.contract == contract;
  }

  /** A scope's preference decides every eligible consumer of its `Single` contract: the preferred provider or none. */
  lemma PreferenceRules(registry: Registry, platform: PlatformTable, preferred: PreferenceTable, scope: Id, among: set<Id>,
                        grants: Grants, c: Consumer)
    requires scope in preferred && c.contract in preferred[scope]
    requires var t := TopologyOfScope(registry, platform, preferred, scope, among);
      Defined(t.definitions, c.contract) && DefinitionOf(t.definitions, c.contract).resolution.Single?
    requires forall i | 0 <= i < |c.requiredGrants| :: HasReadGrant(grants, c.owner, c.requiredGrants[i])
    ensures var outcome := Outcome(TopologyOfScope(registry, platform, preferred, scope, among), grants, c);
      var choice := preferred[scope][c.contract];
      outcome == if Offers(ProvidersOf(registry, scope, among), c.contract, grants, choice) then Selected([choice])
                 else Failed(PreferredProviderUnavailable)
  {
    var choice := preferred[scope][c.contract];
    assert choice in EligibleOwners(ProvidersOf(registry, scope, among), c.contract, grants)
      <==> Offers(ProvidersOf(registry, scope, among), c.contract, grants, choice);
  }

  /** Preferences of other scopes and for other contracts do not matter, nor does any for a `Multiple` contract. */
  lemma OtherPreferencesDoNotMatter(registry: Registry, platform: PlatformTable, preferred: PreferenceTable, other: PreferenceTable,
                                    scope: Id, among: set<Id>, grants: Grants, c: Consumer)
    requires var definitions := TopologyOfScope(registry, platform, preferred, scope, among).definitions;
      || (Defined(definitions, c.contract) && DefinitionOf(definitions, c.contract).resolution.Multiple?)
      || (c.contract !in PreferencesIn(preferred, scope) && c.contract !in PreferencesIn(other, scope))
      || (c.contract in PreferencesIn(preferred, scope) && c.contract in PreferencesIn(other, scope)
          && PreferencesIn(preferred, scope)[c.contract] == PreferencesIn(other, scope)[c.contract])
    ensures Outcome(TopologyOfScope(registry, platform, preferred, scope, among), grants, c)
         == Outcome(TopologyOfScope(registry, platform, other, scope, among), grants, c)
  {
  }

  lemma ScopeIsWellFormed(registry: Registry, platform: PlatformTable, preferred: PreferenceTable, scope: Id, among: set<Id>)
    requires Coordinated(registry, platform)
    ensures WellFormed(TopologyOfScope(registry, platform, preferred, scope, among))
  {
    ScopeDefinitionsCoherent(registry, platform, scope, among);
    var providers := ProvidersOf(registry, scope, among);
    forall p, q | p in providers && q in providers && p.owner == q.owner && p.contract == q.contract ensures p == q {
      assert OwnDeclarations(p.owner.instanceId, registry[p.owner.instanceId]);
    }
    var consumers := ConsumersOf(registry, scope, among);
    forall c, d | c in consumers && d in consumers && c.owner == d.owner && c.contract == d.contract ensures c == d {
      assert OwnDeclarations(c.owner.instanceId, registry[c.owner.instanceId]);
    }
  }

  lemma ScopeDefinitionsCoherent(registry: Registry, platform: PlatformTable, scope: Id, among: set<Id>)
    requires Coordinated(registry, platform)
    ensures Coherent(DefinitionsOf(registry, scope, among) + PlatformIn(platform, scope).Values)
  {
    var own, host := DefinitionsOf(registry, scope, among), PlatformIn(platform, scope);
    forall d | d in own ensures d.contract !in host {
      var id, o :| Member(registry, scope, among, id) && o in registry[id].definitions && o.definition == d;
      assert LeavesPlatform(platform, registry[id]);
    }
    forall d | d in host.Values ensures d.contract in host && host[d.contract] == d {
      var contract :| contract in host && host[contract] == d;
    }
    forall d, e | d in own && e in own && d.contract == e.contract ensures d == e {
      var a, o :| Member(registry, scope, among, a) && o in registry[a].definitions && o.definition == d;
      var b, p :| Member(registry, scope, among, b) && p in registry[b].definitions && p.definition == e;
      assert Agree(registry[a], registry[b]);
    }
  }

  // ---------- resolving against fewer instances ----------

  /** A binding survives in a smaller set that keeps its providers and some definition of its contract. */
  lemma BindingSurvives(registry: Registry, platform: PlatformTable, preferred: PreferenceTable, grants: Grants,
                        scope: Id, larger: set<Id>, smaller: set<Id>, c: Consumer)
    requires Coordinated(registry, platform) && smaller <= larger
    requires Outcome(TopologyOfScope(registry, platform, preferred, scope, larger), grants, c).Selected?
    requires forall q | q in Outcome(TopologyOfScope(registry, platform, preferred, scope, larger), grants, c).providers ::
               q.instanceId in smaller
    requires Defined(DefinitionsOf(registry, scope, smaller) + PlatformIn(platform, scope).Values, c.contract)
    ensures Outcome(TopologyOfScope(registry, platform, preferred, scope, smaller), grants, c)
         == Outcome(TopologyOfScope(registry, platform, preferred, scope, larger), grants, c)
  {
    hide Coordinated, Listing, LeastRef;
    var t, u := TopologyOfScope(registry, platform, preferred, scope, larger),
                TopologyOfScope(registry, platform, preferred, scope, smaller);
    ScopeDefinitionsCoherent(registry, platform, scope, larger);
    SmallerDefinitions(registry, scope, larger, smaller);
    assert DefinitionOf(t.definitions, c.contract) == DefinitionOf(u.definitions, c.contract);
    SelectionSurvives(registry, platform, grants, scope, larger, smaller, c.contract,
                      DefinitionOf(t.definitions, c.contract).resolution, Preferred(t.preferred, c.contract));
  }

  lemma SmallerDefinitions(registry: Registry, scope: Id, larger: set<Id>, smaller: set<Id>)
    requires smaller <= larger
    ensures DefinitionsOf(registry, scope, smaller) <= DefinitionsOf(registry, scope, larger)
  {
    forall d | d in DefinitionsOf(registry, scope, smaller) ensures d in DefinitionsOf(registry, scope, larger) {
      var id, o :| Member(registry, scope, smaller, id) && o in registry[id].definitions && o.definition == d;
      assert Member(registry, scope, larger, id);
    }
  }

  lemma SelectionSurvives(registry: Registry, platform: PlatformTable, grants: Grants, scope: Id, larger: set<Id>, smaller: set<Id>,
                          contract: ContractKey, resolution: Resolution, preferred: Option<ComponentRef>)
    requires Coordinated(registry, platform) && smaller <= larger
    requires var s := SelectFrom(ProvidersOf(registry, scope, larger), contract, resolution, preferred, grants);
      s.Selected? && forall q | q in s.providers :: q.instanceId in smaller
    ensures SelectFrom(ProvidersOf(registry, scope, smaller), contract, resolution, preferred, grants)
         == SelectFrom(ProvidersOf(registry, scope, larger), contract, resolution, preferred, grants)
  {
    hide ProviderEligible, Coordinated;
    var all, few := ProvidersOf(registry, scope, larger), ProvidersOf(registry, scope, smaller);
    var more, fewer := EligibleOwners(all, contract, grants), EligibleOwners(few, contract, grants);
    forall q ensures q in fewer <==> q in more && q.instanceId in smaller {
      OffersIn(registry, platform, grants, scope, larger, smaller, contract, q);
    }
    if resolution.Single? && preferred.Some? {
    } else {
      var kept := SelectFrom(all, contract, resolution, preferred, grants).providers;
      match resolution {
        case Single =>
          assert LeastRef(more) in kept;
          assert IsLeastRef(fewer, LeastRef(more));
          LeastRefIsUnique(fewer, LeastRef(more));
          SomeProvider(few, contract, grants, LeastRef(more));
        case Multiple =>
          forall q | q in more ensures q in fewer {
            assert q in Elements(kept);
          }
          assert more == fewer;
          var q :| q in more;
          SomeProvider(few, contract, grants, q);
      }
    }
  }

  lemma SomeProvider(providers: set<Provider>, contract: ContractKey, grants: Grants, owner: ComponentRef)
    requires owner in EligibleOwners(providers, contract, grants)
    ensures exists p :: p in providers && p.contract == contract
  {
    var p :| p in providers && p.contract == contract && p.owner == owner && ProviderEligible(grants, p);
  }

  lemma OffersIn(registry: Registry, platform: PlatformTable, grants: Grants, scope: Id, larger: set<Id>, smaller: set<Id>,
                 contract: ContractKey, q: ComponentRef)
    requires Coordinated(registry, platform) && smaller <= larger
    ensures Offers(ProvidersOf(registry, scope, smaller), contract, grants, q)
       <==> Offers(ProvidersOf(registry, scope, larger), contract, grants, q) && q.instanceId in smaller
  {
    hide ProviderEligible;
    var all, few := ProvidersOf(registry, scope, larger), ProvidersOf(registry, scope, smaller);
    if p :| p in few && p.contract == contract && p.owner == q && ProviderEligible(grants, p) {
      var id :| Member(registry, scope, smaller, id) && p in registry[id].providers;
      assert OwnDeclarations(id, registry[id]);
      assert Member(registry, scope, larger, id);
      assert p in all;
    }
    if p :| p in all && p.contract == contract && p.owner == q && ProviderEligible(grants, p) {
      var id :| Member(registry, scope, larger, id) && p in registry[id].providers;
      assert OwnDeclarations(id, registry[id]);
      if q.instanceId in smaller {
        assert Member(registry, scope, smaller, id);
        assert p in few;
      }
    }
  }
}
