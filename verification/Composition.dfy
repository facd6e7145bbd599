/** Contract provider/consumer resolution. */
module Composition {
  import opened Identifiers
  import opened SecretPatterns
  import opened SecretPolicy

  datatype Resolution = Single | Multiple
  datatype Protocol = Binding | Service

  datatype Definition = Definition(contract: ContractKey, resolution: Resolution, protocol: Protocol)
  datatype Provider = Provider(owner: ComponentRef, contract: ContractKey, requiredGrants: seq<Pattern>)
  datatype Consumer = Consumer(owner: ComponentRef, contract: ContractKey, required: bool, requiredGrants: seq<Pattern>)

  datatype Reason =
    | UndefinedContract
    | ConsumerIneligible
    | NoProvider
    | NoEligibleProvider
    | PreferredProviderUnavailable

  datatype ContractBinding =
    ContractBinding(consumer: ComponentRef, contract: ContractKey, required: bool, providers: seq<ComponentRef>)
  datatype Unresolved =
    Unresolved(consumer: ComponentRef, contract: ContractKey, required: bool, reason: Reason)

  datatype Snapshot = Snapshot(bindings: seq<ContractBinding>, unresolved: seq<Unresolved>)

  type Preferences = map<ContractKey, ComponentRef>

  function Preferred(preferences: Preferences, contract: ContractKey): Option<ComponentRef> {
    if contract in preferences then Some(preferences[contract]) else None
  }

  predicate RequirementsSatisfied(grants: Grants, owner: ComponentRef, requirements: seq<Pattern>) {
    forall i | 0 <= i < |requirements| :: HasReadGrant(grants, owner, requirements[i])
  }

  predicate ProviderEligible(grants: Grants, p: Provider) {
    RequirementsSatisfied(grants, p.owner, p.requiredGrants)
  }

  // ---------- the reference resolution, over sets ----------

  datatype Selection = Selected(providers: seq<ComponentRef>) | Failed(reason: Reason)

  ghost predicate Offers(providers: set<Provider>, contract: ContractKey, grants: Grants, owner: ComponentRef) {
    exists p :: p in providers && p.contract == contract && p.owner == owner && ProviderEligible(grants, p)
  }

  ghost function EligibleOwners(providers: set<Provider>, contract: ContractKey, grants: Grants): (s: set<ComponentRef>)
    ensures forall owner :: owner in s <==> Offers(providers, contract, grants, owner)
  {
    set p | p in providers && p.contract == contract && ProviderEligible(grants, p) :: p.owner
  }

  /** The preferred provider if it is eligible; else the least eligible one (`Single`) or the sorted
      list of all of them (`Multiple`). */
  ghost function SelectFrom(providers: set<Provider>, contract: ContractKey, resolution: Resolution,
                            preferred: Option<ComponentRef>, grants: Grants): Selection
  {
    var eligible := EligibleOwners(providers, contract, grants);
    if resolution.Single? && preferred.Some? then
      if preferred.value in eligible then Selected([preferred.value]) else Failed(PreferredProviderUnavailable)
    else if !exists p :: p in providers && p.contract == contract then Failed(NoProvider)
    else if eligible == {} then Failed(NoEligibleProvider)
    else match resolution
      case Single => Selected([LeastRef(eligible)])
      case Multiple => Selected(Listing(eligible))
  }

  /** Everything that takes part in resolving one scope. */
  datatype Topology = Topology(definitions: set<Definition>, providers: set<Provider>,
                               consumers: set<Consumer>, preferred: Preferences)

  ghost predicate Coherent(definitions: set<Definition>) {
    forall d, e | d in definitions && e in definitions && d.contract == e.contract :: d == e
  }

  ghost predicate UniqueProviders(providers: set<Provider>) {
    forall p, q | p in providers && q in providers && p.owner == q.owner && p.contract == q.contract :: p == q
  }

  ghost predicate UniqueConsumers(consumers: set<Consumer>) {
    forall c, d | c in consumers && d in consumers && c.owner == d.owner && c.contract == d.contract :: c == d
  }

  ghost predicate WellFormed(t: Topology) {
    Coherent(t.definitions) && UniqueProviders(t.providers) && UniqueConsumers(t.consumers)
  }

  ghost predicate Defined(definitions: set<Definition>, contract: ContractKey) {
    exists d :: d in definitions && d.contract == contract
  }

  ghost function DefinitionOf(definitions: set<Definition>, contract: ContractKey): (d: Definition)
    requires Defined(definitions, contract)
    ensures d in definitions && d.contract == contract
  {
    var d :| d in definitions && d.contract == contract; d
  }

  /** What one consumer is resolved to. */
  ghost function Outcome(t: Topology, grants: Grants, c: Consumer): Selection {
    if !Defined(t.definitions, c.contract) then Failed(UndefinedContract)
    else if !RequirementsSatisfied(grants, c.owner, c.requiredGrants) then Failed(ConsumerIneligible)
    else SelectFrom(t.providers, c.contract, DefinitionOf(t.definitions, c.contract).resolution,
                    Preferred(t.preferred, c.contract), grants)
  }

  function BindingKey(b: ContractBinding): SortKey {
    SortKey(b.consumer.instanceId, b.consumer.componentId, ContractText(b.contract))
  }

  function UnresolvedKey(u: Unresolved): SortKey {
    SortKey(u.consumer.instanceId, u.consumer.componentId, ContractText(u.contract))
  }

  /** One endpoint comes before another: by component, and for one component by the contract's text. */
  ghost predicate EndpointBefore(p: ComponentRef, c: ContractKey, q: ComponentRef, d: ContractKey) {
    RefBefore(p, q) || (p == q && TextBefore(ContractText(c), ContractText(d)))
  }

  lemma KeysOrderEndpoints(a: ContractBinding, b: ContractBinding, u: Unresolved, v: Unresolved)
    ensures KeyBefore(BindingKey(a), BindingKey(b)) <==> EndpointBefore(a.consumer, a.contract, b.consumer, b.contract)
    ensures KeyBefore(UnresolvedKey(u), UnresolvedKey(v)) <==> EndpointBefore(u.consumer, u.contract, v.consumer, v.contract)
  {
    hide TextBefore, ContractText;
    forall x, y: string ensures Before(x, y) <==> TextBefore(x, y) {
      BeforeIsTextOrder(x, y);
    }
  }

  ghost predicate Binds(t: Topology, grants: Grants, c: Consumer, b: ContractBinding) {
    Outcome(t, grants, c).Selected?
    && b == ContractBinding(c.owner, c.contract, c.required, Outcome(t, grants, c).providers)
  }

  ghost predicate Leaves(t: Topology, grants: Grants, c: Consumer, u: Unresolved) {
    Outcome(t, grants, c).Failed?
    && u == Unresolved(c.owner, c.contract, c.required, Outcome(t, grants, c).reason)
  }

  /** `snapshot` lists, in key order, exactly the bindings and failures of the given consumers. */
  ghost predicate Reports(t: Topology, grants: Grants, consumers: set<Consumer>, snapshot: Snapshot) {
    && (forall b :: b in snapshot.bindings <==> exists c :: c in consumers && Binds(t, grants, c, b))
    && (forall u :: u in snapshot.unresolved <==> exists c :: c in consumers && Leaves(t, grants, c, u))
  }

  ghost predicate IsSnapshot(t: Topology, grants: Grants, snapshot: Snapshot) {
    && Reports(t, grants, t.consumers, snapshot)
    && StrictlySorted(snapshot.bindings, BindingKey)
    && StrictlySorted(snapshot.unresolved, UnresolvedKey)
  }

  /** Resolution is a function of the sets of definitions, providers and consumers. */
  lemma SnapshotIsUnique(t: Topology, grants: Grants, a: Snapshot, b: Snapshot)
    requires IsSnapshot(t, grants, a) && IsSnapshot(t, grants, b)
    ensures a == b
  {
    forall x ensures x in a.bindings <==> x in b.bindings {
    }
    forall x ensures x in a.unresolved <==> x in b.unresolved {
    }
    assert Elements(a.bindings) == Elements(b.bindings);
    assert Elements(a.unresolved) == Elements(b.unresolved);
    StrictListingIsUnique(a.bindings, b.bindings, BindingKey);
    StrictListingIsUnique(a.unresolved, b.unresolved, UnresolvedKey);
  }

  ghost predicate BoundIn(snapshot: Snapshot, owner: ComponentRef, contract: ContractKey) {
    exists b :: b in snapshot.bindings && b.consumer == owner && b.contract == contract
  }

  ghost predicate UnresolvedIn(snapshot: Snapshot, owner: ComponentRef, contract: ContractKey) {
    exists u :: u in snapshot.unresolved && u.consumer == owner && u.contract == contract
  }

  /** Each consumer endpoint lands in exactly one of the two lists; nothing else lands in either. */
  lemma EachConsumerIsReportedOnce(t: Topology, grants: Grants, snapshot: Snapshot, owner: ComponentRef, contract: ContractKey)
    requires WellFormed(t) && IsSnapshot(t, grants, snapshot)
    ensures (exists c :: c in t.consumers && c.owner == owner && c.contract == contract)
       <==> BoundIn(snapshot, owner, contract) || UnresolvedIn(snapshot, owner, contract)
    ensures !(BoundIn(snapshot, owner, contract) && UnresolvedIn(snapshot, owner, contract))
  {
    hide Outcome, StrictlySorted;
    if c :| c in t.consumers && c.owner == owner && c.contract == contract {
      match Outcome(t, grants, c) {
        case Selected(providers) =>
          var b := ContractBinding(owner, contract, c.required, providers);
          assert Binds(t, grants, c, b);
        case Failed(reason) =>
          var u := Unresolved(owner, contract, c.required, reason);
          assert Leaves(t, grants, c, u);
      }
    }
  }

  // ---------- resolution as the source computes it ----------

  ghost predicate DistinctProviders(providers: seq<Provider>) {
    forall i, j | 0 <= i < j < |providers| ::
      providers[i].owner != providers[j].owner || providers[i].contract != providers[j].contract
  }

  ghost predicate DistinctConsumers(consumers: seq<Consumer>) {
    forall i, j | 0 <= i < j < |consumers| ::
      consumers[i].owner != consumers[j].owner || consumers[i].contract != consumers[j].contract
  }

  /** Filters by contract and keeps the owners in list order. */
  method MatchingOwners(contract: ContractKey, providers: seq<Provider>, secrets: SecretManager)
    returns (any: bool, owners: seq<ComponentRef>)
    requires DistinctProviders(providers)
    ensures any <==> exists p :: p in Elements(providers) && p.contract == contract
    ensures Elements(owners) == EligibleOwners(Elements(providers), contract, secrets.readGrants)
    ensures DistinctKeys(owners, RefKey)
  {
    any, owners := false, [];
    for i := 0 to |providers|
      invariant any <==> exists j :: 0 <= j < i && providers[j].contract == contract
      invariant forall owner :: owner in owners <==>
        exists j :: 0 <= j < i && providers[j].contract == contract && providers[j].owner == owner
                    && ProviderEligible(secrets.readGrants, providers[j])
      invariant DistinctKeys(owners, RefKey)
    {
      if providers[i].contract == contract {
        any := true;
        if ProviderEligible(secrets.readGrants, providers[i]) {
          assert providers[i].owner !in owners;
          owners := owners + [providers[i].owner];
        }
      }
    }
    assert any ==> exists p :: p in Elements(providers) && p.contract == contract by {
      if any {
        var j :| 0 <= j < |providers| && providers[j].contract == contract;
        assert providers[j] in Elements(providers);
      }
    }
    EligibleFromList(contract, providers, secrets.readGrants, owners);
  }

  lemma EligibleFromList(contract: ContractKey, providers: seq<Provider>, grants: Grants, owners: seq<ComponentRef>)
    requires forall owner :: owner in owners <==>
      exists j :: 0 <= j < |providers| && providers[j].contract == contract && providers[j].owner == owner
                  && ProviderEligible(grants, providers[j])
    ensures Elements(owners) == EligibleOwners(Elements(providers), contract, grants)
  {
    hide ProviderEligible;
    forall owner ensures owner in owners <==> Offers(Elements(providers), contract, grants, owner) {
      if j :| 0 <= j < |providers| && providers[j].contract == contract && providers[j].owner == owner
              && ProviderEligible(grants, providers[j])
      {
        assert providers[j] in Elements(providers);
      }
    }
  }

  /** Some provider of the contract with this owner has every grant it requires. */
  predicate EligibleIn(providers: seq<Provider>, contract: ContractKey, grants: Grants, owner: ComponentRef) {
    exists i :: 0 <= i < |providers| && providers[i].contract == contract && providers[i].owner == owner
                && forall k | 0 <= k < |providers[i].requiredGrants| :: HasReadGrant(grants, owner, providers[i].requiredGrants[k])
  }

  predicate AnyProvider(providers: seq<Provider>, contract: ContractKey) {
    exists i :: 0 <= i < |providers| && providers[i].contract == contract
  }

  lemma EligibleMeans(providers: seq<Provider>, contract: ContractKey, grants: Grants)
    ensures forall owner :: owner in EligibleOwners(Elements(providers), contract, grants) <==> EligibleIn(providers, contract, grants, owner)
  {
    forall owner ensures owner in EligibleOwners(Elements(providers), contract, grants) <==> EligibleIn(providers, contract, grants, owner) {
      if p :| p in Elements(providers) && p.contract == contract && p.owner == owner && ProviderEligible(grants, p) {
        var i :| 0 <= i < |providers| && providers[i] == p;
      }
      if EligibleIn(providers, contract, grants, owner) {
        var i :| 0 <= i < |providers| && providers[i].contract == contract && providers[i].owner == owner
                 && forall k | 0 <= k < |providers[i].requiredGrants| :: HasReadGrant(grants, owner, providers[i].requiredGrants[k]);
        assert providers[i] in Elements(providers) && ProviderEligible(grants, providers[i]);
      }
    }
  }

  /** What the selection means for a caller: a preferred provider of a `Single` contract decides alone; otherwise the
      eligible providers are taken in the order of their texts, the first or all. */
  ghost predicate Chooses(providers: seq<Provider>, contract: ContractKey, resolution: Resolution, preferred: Option<ComponentRef>,
                          grants: Grants, r: Selection)
  {
    if resolution.Single? && preferred.Some? then
      r == if EligibleIn(providers, contract, grants, preferred.value) then Selected([preferred.value]) else Failed(PreferredProviderUnavailable)
    else match r
      case Failed(reason) =>
        && (forall owner :: !EligibleIn(providers, contract, grants, owner))
        && reason == if AnyProvider(providers, contract) then NoEligibleProvider else NoProvider
      case Selected(chosen) =>
        && |chosen| > 0 && (forall owner | owner in chosen :: EligibleIn(providers, contract, grants, owner))
        && (forall i, j | 0 <= i < j < |chosen| :: RefBefore(chosen[i], chosen[j]))
        && if resolution.Single? then
             |chosen| == 1 && forall owner | EligibleIn(providers, contract, grants, owner) && owner != chosen[0] :: RefBefore(chosen[0], owner)
           else forall owner | EligibleIn(providers, contract, grants, owner) :: owner in chosen
  }

  lemma SelectionChooses(providers: seq<Provider>, contract: ContractKey, resolution: Resolution, preferred: Option<ComponentRef>, grants: Grants)
    ensures Chooses(providers, contract, resolution, preferred, grants, SelectFrom(Elements(providers), contract, resolution, preferred, grants))
  {
    hide EligibleOwners, EligibleIn, RefBefore, KeyBefore;
    EligibleMeans(providers, contract, grants);
    var eligible := EligibleOwners(Elements(providers), contract, grants);
    assert (exists p :: p in Elements(providers) && p.contract == contract) <==> AnyProvider(providers, contract) by {
      if p :| p in Elements(providers) && p.contract == contract {
        var i :| 0 <= i < |providers| && providers[i] == p;
      }
      if AnyProvider(providers, contract) {
        var i :| 0 <= i < |providers| && providers[i].contract == contract;
        assert providers[i] in Elements(providers);
      }
    }
    forall p, q ensures KeyBefore(RefKey(p), RefKey(q)) <==> RefBefore(p, q) {
      KeysOrderComponents(p, q);
    }
    if !AnyProvider(providers, contract) {
      forall owner ensures !EligibleIn(providers, contract, grants, owner) {
        NobodyEligible(providers, contract, grants, owner);
      }
    }
    if eligible != {} && resolution.Multiple? {
      var all := Listing(eligible);
      assert forall owner :: owner in all <==> owner in Elements(all);
      assert LeastRef(eligible) in Elements(all);
    }
  }

  lemma NobodyEligible(providers: seq<Provider>, contract: ContractKey, grants: Grants, owner: ComponentRef)
    requires !AnyProvider(providers, contract)
    ensures !EligibleIn(providers, contract, grants, owner)
  {
  }

  /** `resolve_contract_providers`: agrees with the set-level selection. */
  method ResolveContractProviders(contract: ContractKey, resolution: Resolution, providers: seq<Provider>,
                                  preferred: Option<ComponentRef>, secrets: SecretManager)
    returns (r: Selection)
    requires DistinctProviders(providers)
    ensures r == SelectFrom(Elements(providers), contract, resolution, preferred, secrets.readGrants)
    ensures Chooses(providers, contract, resolution, preferred, secrets.readGrants, r)
  {
    hide EligibleOwners, DistinctProviders, Chooses;
    SelectionChooses(providers, contract, resolution, preferred, secrets.readGrants);
    var any, owners := MatchingOwners(contract, providers, secrets);
    if resolution.Single? && preferred.Some? {
      assert preferred.value in owners <==> preferred.value in Elements(owners);
      if preferred.value in owners {
        return Selected([preferred.value]);
      }
      return Failed(PreferredProviderUnavailable);
    }
    if !any {
      return Failed(NoProvider);
    }
    owners := SortByKey(owners, RefKey);
    ListingIsTheOnlyOne(owners);
    if owners == [] {
      assert Elements(owners) == {};
      return Failed(NoEligibleProvider);
    }
    assert owners[0] in Elements(owners);
    match resolution {
      case Single =>
        FirstIsLeast(owners);
        return Selected([owners[0]]);
      case Multiple =>
        return Selected(owners);
    }
  }

  lemma FirstIsLeast(owners: seq<ComponentRef>)
    requires StrictlySorted(owners, RefKey) && |owners| > 0
    ensures Elements(owners) != {} && owners[0] == LeastRef(Elements(owners))
  {
    assert owners[0] in Elements(owners);
    assert IsLeastRef(Elements(owners), owners[0]);
    LeastRefIsUnique(Elements(owners), owners[0]);
  }

  method FindDefinition(definitions: seq<Definition>, contract: ContractKey) returns (r: Option<Definition>)
    requires Coherent(Elements(definitions))
    ensures r == if Defined(Elements(definitions), contract) then Some(DefinitionOf(Elements(definitions), contract)) else None
  {
    for i := 0 to |definitions|
      invariant forall j | 0 <= j < i :: definitions[j].contract != contract
    {
      if definitions[i].contract == contract {
        assert definitions[i] in Elements(definitions);
        return Some(definitions[i]);
      }
    }
    return None;
  }

  ghost function TopologyOf(definitions: seq<Definition>, providers: seq<Provider>, consumers: seq<Consumer>,
                            preferred: Preferences): Topology
  {
    Topology(Elements(definitions), Elements(providers), Elements(consumers), preferred)
  }

  /** What `resolve_contracts` has pushed after some of the consumers. */
  ghost predicate Pushed(t: Topology, grants: Grants, done: seq<Consumer>, snapshot: Snapshot) {
    && Reports(t, grants, Elements(done), snapshot)
    && DistinctKeys(snapshot.bindings, BindingKey)
    && DistinctKeys(snapshot.unresolved, UnresolvedKey)
  }

  /** However the endpoint lists are ordered, they resolve to one snapshot. */
  lemma ReorderedListsResolveAlike(definitions: seq<Definition>, providers: seq<Provider>, consumers: seq<Consumer>,
                                   otherDefinitions: seq<Definition>, otherProviders: seq<Provider>, otherConsumers: seq<Consumer>,
                                   preferred: Preferences, grants: Grants, a: Snapshot, b: Snapshot)
    requires multiset(definitions) == multiset(otherDefinitions) && multiset(providers) == multiset(otherProviders)
    requires multiset(consumers) == multiset(otherConsumers)
    requires IsSnapshot(TopologyOf(definitions, providers, consumers, preferred), grants, a)
    requires IsSnapshot(TopologyOf(otherDefinitions, otherProviders, otherConsumers, preferred), grants, b)
    ensures a == b
  {
    hide IsSnapshot;
    SameElements(definitions, otherDefinitions);
    SameElements(providers, otherProviders);
    SameElements(consumers, otherConsumers);
    SnapshotIsUnique(TopologyOf(definitions, providers, consumers, preferred), grants, a, b);
  }

  /** `resolve_contracts`: the listed snapshot of the sets its arguments hold, whatever their order. */
  method ResolveContracts(definitions: seq<Definition>, providers: seq<Provider>, consumers: seq<Consumer>,
                          preferred: Preferences, secrets: SecretManager)
    returns (snapshot: Snapshot)
    requires Coherent(Elements(definitions)) && DistinctProviders(providers) && DistinctConsumers(consumers)
    ensures IsSnapshot(TopologyOf(definitions, providers, consumers, preferred), secrets.readGrants, snapshot)
  {
    hide Pushed, Reports, StrictlySorted, DistinctProviders, DistinctConsumers, SelectFrom, Coherent, Defined, DistinctKeys, RequirementsSatisfied;
    ghost var t := TopologyOf(definitions, providers, consumers, preferred);
    ghost var grants := secrets.readGrants;
    snapshot := Snapshot([], []);
    NothingPushed(t, grants);
    for i := 0 to |consumers|
      invariant Pushed(t, grants, consumers[..i], snapshot)
    {
      var c := consumers[i];
      var definition := FindDefinition(definitions, c.contract);
      var outcome;
      if definition.None? {
        outcome := Failed(UndefinedContract);
      } else if !RequirementsSatisfied(secrets.readGrants, c.owner, c.requiredGrants) {
        outcome := Failed(ConsumerIneligible);
      } else {
        outcome := ResolveContractProviders(c.contract, definition.value.resolution, providers,
                                            Preferred(preferred, c.contract), secrets);
      }
      assert outcome == Outcome(t, grants, c);
      PushOne(t, grants, consumers, i, snapshot);
      match outcome {
        case Selected(owners) =>
          snapshot := snapshot.(bindings := snapshot.bindings + [ContractBinding(c.owner, c.contract, c.required, owners)]);
        case Failed(reason) =>
          snapshot := snapshot.(unresolved := snapshot.unresolved + [Unresolved(c.owner, c.contract, c.required, reason)]);
      }
    }
    assert consumers[..|consumers|] == consumers;
    ghost var unsorted := snapshot;
    var bindings := SortByKey(snapshot.bindings, BindingKey);
    var unresolved := SortByKey(snapshot.unresolved, UnresolvedKey);
    snapshot := Snapshot(bindings, unresolved);
    SortedIsSnapshot(t, grants, consumers, unsorted, snapshot);
  }

  lemma NothingPushed(t: Topology, grants: Grants)
    ensures Pushed(t, grants, [], Snapshot([], []))
  {
  }

  ghost function PushedWith(t: Topology, grants: Grants, c: Consumer, snapshot: Snapshot): Snapshot {
    match Outcome(t, grants, c)
    case Selected(owners) =>
      snapshot.(bindings := snapshot.bindings + [ContractBinding(c.owner, c.contract, c.required, owners)])
    case Failed(reason) =>
      snapshot.(unresolved := snapshot.unresolved + [Unresolved(c.owner, c.contract, c.required, reason)])
  }

  lemma PushOne(t: Topology, grants: Grants, consumers: seq<Consumer>, i: nat, snapshot: Snapshot)
    requires i < |consumers| && DistinctConsumers(consumers)
    requires Pushed(t, grants, consumers[..i], snapshot)
    ensures Pushed(t, grants, consumers[..i + 1], PushedWith(t, grants, consumers[i], snapshot))
  {
    hide Outcome;
    var c, next := consumers[i], PushedWith(t, grants, consumers[i], snapshot);
    assert consumers[..i + 1] == consumers[..i] + [c];
    assert forall x :: x in Elements(consumers[..i + 1]) <==> x in Elements(consumers[..i]) || x == c;
    PushReports(t, grants, Elements(consumers[..i]), c, snapshot);
    assert Elements(consumers[..i + 1]) == Elements(consumers[..i]) + {c};
    forall k | 0 <= k < |snapshot.bindings|
      ensures BindingKey(snapshot.bindings[k]) != SortKey(c.owner.instanceId, c.owner.componentId, ContractText(c.contract))
    {
      assert snapshot.bindings[k] in snapshot.bindings;
      var d :| d in Elements(consumers[..i]) && Binds(t, grants, d, snapshot.bindings[k]);
      EndpointKeysDiffer(consumers, i, d);
    }
    forall k | 0 <= k < |snapshot.unresolved|
      ensures UnresolvedKey(snapshot.unresolved[k]) != SortKey(c.owner.instanceId, c.owner.componentId, ContractText(c.contract))
    {
      assert snapshot.unresolved[k] in snapshot.unresolved;
      var d :| d in Elements(consumers[..i]) && Leaves(t, grants, d, snapshot.unresolved[k]);
      EndpointKeysDiffer(consumers, i, d);
    }
  }

  lemma EndpointKeysDiffer(consumers: seq<Consumer>, i: nat, d: Consumer)
    requires i < |consumers| && DistinctConsumers(consumers) && d in consumers[..i]
    ensures var c := consumers[i];
      SortKey(d.owner.instanceId, d.owner.componentId, ContractText(d.contract))
      != SortKey(c.owner.instanceId, c.owner.componentId, ContractText(c.contract))
  {
    var c := consumers[i];
    if ContractText(d.contract) == ContractText(c.contract) {
      ContractTextIsInjective(d.contract, c.contract);
      var j :| 0 <= j < i && consumers[j] == d;
      assert consumers[j].owner != consumers[i].owner;
    }
  }

  lemma PushReports(t: Topology, grants: Grants, done: set<Consumer>, c: Consumer, snapshot: Snapshot)
    requires Reports(t, grants, done, snapshot)
    ensures Reports(t, grants, done + {c}, PushedWith(t, grants, c, snapshot))
  {
    hide Outcome;
    var next := PushedWith(t, grants, c, snapshot);
    forall b ensures b in next.bindings <==> exists d :: d in done + {c} && Binds(t, grants, d, b) {
      assert b in next.bindings <==> b in snapshot.bindings || Binds(t, grants, c, b);
      if d :| d in done && Binds(t, grants, d, b) { assert d in done + {c}; }
      if Binds(t, grants, c, b) { assert c in done + {c}; }
    }
    forall u ensures u in next.unresolved <==> exists d :: d in done + {c} && Leaves(t, grants, d, u) {
      assert u in next.unresolved <==> u in snapshot.unresolved || Leaves(t, grants, c, u);
      if d :| d in done && Leaves(t, grants, d, u) { assert d in done + {c}; }
      if Leaves(t, grants, c, u) { assert c in done + {c}; }
    }
  }

  lemma SortedIsSnapshot(t: Topology, grants: Grants, consumers: seq<Consumer>, unsorted: Snapshot, sorted: Snapshot)
    requires t.consumers == Elements(consumers) && Pushed(t, grants, consumers, unsorted)
    requires Elements(sorted.bindings) == Elements(unsorted.bindings)
    requires Elements(sorted.unresolved) == Elements(unsorted.unresolved)
    requires DistinctKeys(unsorted.bindings, BindingKey) ==> StrictlySorted(sorted.bindings, BindingKey)
    requires DistinctKeys(unsorted.unresolved, UnresolvedKey) ==> StrictlySorted(sorted.unresolved, UnresolvedKey)
    ensures IsSnapshot(t, grants, sorted)
  {
    hide Binds, Leaves, StrictlySorted, DistinctKeys;
    assert forall b :: b in sorted.bindings <==> b in Elements(sorted.bindings);
    assert forall b :: b in unsorted.bindings <==> b in Elements(unsorted.bindings);
    assert forall u :: u in sorted.unresolved <==> u in Elements(sorted.unresolved);
    assert forall u :: u in unsorted.unresolved <==> u in Elements(unsorted.unresolved);
  }
}
