/** Copying part of a profile into a new scope under new instance ids. */
module Materialization {
  import opened Identifiers
  import opened DependencyGraph
  import opened ProfileRecords
  import opened Lists
  import opened Profile

  /** The instance map the activation loop builds; a repeated id keeps its last new name. */
  function Renaming(included: seq<ActivationRecord>, names: seq<Id>): map<Id, Id>
    requires |included| <= |names|
  {
    if included == [] then map[]
    else Renaming(included[..|included| - 1], names)[included[|included| - 1].instanceId := names[|included| - 1]]
  }

  function RenameOwner(renaming: map<Id, Id>, owner: ComponentRef): Option<ComponentRef> {
    if owner.instanceId in renaming then Some(ComponentRef(renaming[owner.instanceId], owner.componentId)) else None
  }

  function RenameSelection(renaming: map<Id, Id>, scope: Id): ProviderSelection -> Option<ProviderSelection> {
    (s: ProviderSelection) =>
      var owner := RenameOwner(renaming, s.provider);
      if owner.Some? then Some(ProviderSelection(scope, s.contract, owner.value)) else None
  }

  function RenameGrant(renaming: map<Id, Id>, scope: Id): PermissionGrant -> Option<PermissionGrant> {
    (g: PermissionGrant) =>
      var owner := RenameOwner(renaming, g.owner);
      if owner.Some? then Some(PermissionGrant(scope, owner.value, g.permission)) else None
  }

  function RenamePreference(renaming: map<Id, Id>, scope: Id): PreferenceRecord -> Option<PreferenceRecord> {
    (p: PreferenceRecord) =>
      var owner := RenameOwner(renaming, p.owner);
      if owner.Some? then Some(PreferenceRecord(scope, owner.value, p.key, p.value)) else None
  }

  function Materialized(profile: Records, scope: Id, chosen: ActivationRecord -> bool, names: seq<Id>): Records
    requires |Retain(profile.activations, chosen)| <= |names|
  {
    var included := Retain(profile.activations, chosen);
    var renaming := Renaming(included, names);
    Records(
      seq(|included|, k requires 0 <= k < |included| => included[k].(instanceId := names[k], scopeId := scope, worldDefault := false)),
      FilterMap(profile.preferredProviders, RenameSelection(renaming, scope)),
      FilterMap(profile.runtimePermissions, RenameGrant(renaming, scope)),
      FilterMap(profile.preferences, RenamePreference(renaming, scope)))
  }

  /** `materialize_matching`, drawing new instance ids from a supply that never repeats one. */
  method MaterializeMatching(profile: Records, scope: Id, chosen: ActivationRecord -> bool, names: seq<Id>) returns (r: Records)
    requires |Retain(profile.activations, chosen)| <= |names|
    ensures r == Materialized(profile, scope, chosen, names)
  {
    var included := Retain(profile.activations, chosen);
    var renaming: map<Id, Id>, activations: seq<ActivationRecord> := map[], [];
    for k := 0 to |included|
      invariant renaming == Renaming(included[..k], names)
      invariant |activations| == k
      invariant forall i | 0 <= i < k :: activations[i] == included[i].(instanceId := names[i], scopeId := scope, worldDefault := false)
    {
      assert included[..k + 1][..k] == included[..k];
      renaming := renaming[included[k].instanceId := names[k]];
      activations := activations + [included[k].(instanceId := names[k], scopeId := scope, worldDefault := false)];
    }
    assert included[..|included|] == included;
    return Records(activations,
                   FilterMap(profile.preferredProviders, RenameSelection(renaming, scope)),
                   FilterMap(profile.runtimePermissions, RenameGrant(renaming, scope)),
                   FilterMap(profile.preferences, RenamePreference(renaming, scope)));
  }

  // ---------- the renaming ----------

  /** The last included activation with an id gives it its name. */
  ghost predicate NamedLast(included: seq<ActivationRecord>, names: seq<Id>, id: Id, name: Id, k: nat) {
    && k < |included| <= |names| && included[k].instanceId == id && name == names[k]
    && forall m | k < m < |included| :: included[m].instanceId != id
  }

  lemma {:induction false} RenamedAt(included: seq<ActivationRecord>, names: seq<Id>, k: nat)
    requires k < |included| <= |names|
    ensures included[k].instanceId in Renaming(included, names)
  {
    var last := |included| - 1;
    if k < last {
      RenamedAt(included[..last], names, k);
    }
  }

  lemma {:induction false} CarrierOf(included: seq<ActivationRecord>, names: seq<Id>, id: Id) returns (k: nat)
    requires |included| <= |names| && id in Renaming(included, names)
    ensures NamedLast(included, names, id, Renaming(included, names)[id], k)
  {
    k := |included| - 1;
    if id != included[k].instanceId {
      k := CarrierOf(included[..k], names, id);
    }
  }

  lemma RenamingIsInjective(included: seq<ActivationRecord>, names: seq<Id>, a: Id, b: Id)
    requires |included| <= |names| && Distinct(names)
    requires var renaming := Renaming(included, names); a in renaming && b in renaming && renaming[a] == renaming[b]
    ensures a == b
  {
    var i := CarrierOf(included, names, a);
    var j := CarrierOf(included, names, b);
  }

  function InstanceOf(a: ActivationRecord): Id { a.instanceId }

  /** The new activations carry the same names as the renamed policy records exactly when no included
      activation repeats an instance id. */
  lemma RenamingIsConsistentIff(profile: Records, scope: Id, chosen: ActivationRecord -> bool, names: seq<Id>)
    requires |Retain(profile.activations, chosen)| <= |names| && Distinct(names)
    ensures var included := Retain(profile.activations, chosen);
      (forall k | 0 <= k < |included| ::
         included[k].instanceId in Renaming(included, names)
         && Materialized(profile, scope, chosen, names).activations[k].instanceId == Renaming(included, names)[included[k].instanceId])
      <==> Unique(included, InstanceOf)
  {
    NamesAgreeIff(Retain(profile.activations, chosen), names);
  }

  lemma NamesAgreeIff(included: seq<ActivationRecord>, names: seq<Id>)
    requires |included| <= |names| && Distinct(names)
    ensures forall k | 0 <= k < |included| :: included[k].instanceId in Renaming(included, names)
    ensures (forall k | 0 <= k < |included| :: included[k].instanceId in Renaming(included, names)
                                           && names[k] == Renaming(included, names)[included[k].instanceId])
       <==> Unique(included, InstanceOf)
  {
    hide Renaming;
    forall k | 0 <= k < |included| ensures included[k].instanceId in Renaming(included, names) {
      RenamedAt(included, names, k);
    }
    if Unique(included, InstanceOf) {
      DistinctKeepTheirNames(included, names);
    } else {
      var i, j :| 0 <= i < j < |included| && InstanceOf(included[i]) == InstanceOf(included[j]);
      assert names[i] != names[j];
    }
  }

  lemma DistinctKeepTheirNames(included: seq<ActivationRecord>, names: seq<Id>)
    requires |included| <= |names| && Unique(included, InstanceOf)
    requires forall k | 0 <= k < |included| :: included[k].instanceId in Renaming(included, names)
    ensures forall k | 0 <= k < |included| :: names[k] == Renaming(included, names)[included[k].instanceId]
  {
    hide Renaming;
    forall k | 0 <= k < |included| ensures names[k] == Renaming(included, names)[included[k].instanceId] {
      var j := CarrierOf(included, names, included[k].instanceId);
      assert InstanceOf(included[j]) == InstanceOf(included[k]);
    }
  }

  // ---------- the result ----------

  /** Every record of the result names the one new scope, and every policy record an instance of the result. */
  lemma MaterializedIsClosed(profile: Records, scope: Id, chosen: ActivationRecord -> bool, names: seq<Id>)
    requires |Retain(profile.activations, chosen)| <= |names|
    ensures var r := Materialized(profile, scope, chosen, names);
      && InScope(r, scope)
      && (forall s | s in r.preferredProviders :: exists a :: a in r.activations && a.instanceId == s.provider.instanceId)
      && (forall g | g in r.runtimePermissions :: exists a :: a in r.activations && a.instanceId == g.owner.instanceId)
      && (forall p | p in r.preferences :: exists a :: a in r.activations && a.instanceId == p.owner.instanceId)
  {
    hide Renaming, Retain;
    var included := Retain(profile.activations, chosen);
    var renaming, r := Renaming(included, names), Materialized(profile, scope, chosen, names);
    forall id | id in renaming ensures exists a :: a in r.activations && a.instanceId == renaming[id] {
      var k := CarrierOf(included, names, id);
      assert r.activations[k] in r.activations;
    }
  }

  /** The copied activations are those of the chosen positions, in order: each keeps its subject, content, artifact and
      enabled state, moves to the new scope under its own new name, and is no default. */
  ghost predicate Copies(activations: seq<ActivationRecord>, scope: Id, chosen: ActivationRecord -> bool, names: seq<Id>, copies: seq<ActivationRecord>,
                         positions: seq<nat>)
  {
    && Increasing(positions) && |positions| == |copies| <= |names|
    && (forall p: nat :: p in positions <==> p < |activations| && chosen(activations[p]))
    && forall k | 0 <= k < |copies| && positions[k] < |activations| ::
         var a := activations[positions[k]];
         copies[k] == ActivationRecord(a.subject, a.content, a.artifact, names[k], scope, a.enabled, false)
  }

  lemma ActivationsAreCopied(profile: Records, scope: Id, chosen: ActivationRecord -> bool, names: seq<Id>)
    requires |Retain(profile.activations, chosen)| <= |names|
    ensures exists positions :: Copies(profile.activations, scope, chosen, names, Materialized(profile, scope, chosen, names).activations, positions)
  {
    hide Copies, Renaming;
    var included := Retain(profile.activations, chosen);
    RetainShows(profile.activations, chosen);
    var positions :| ShowsAt(|profile.activations|, KeptAt(profile.activations, chosen), included, positions);
    CopiesOfIncluded(profile.activations, scope, chosen, names, included, Materialized(profile, scope, chosen, names).activations, positions);
  }

  lemma CopiesOfIncluded(activations: seq<ActivationRecord>, scope: Id, chosen: ActivationRecord -> bool, names: seq<Id>,
                         included: seq<ActivationRecord>, copies: seq<ActivationRecord>, positions: seq<nat>)
    requires ShowsAt(|activations|, KeptAt(activations, chosen), included, positions) && |copies| == |included| <= |names|
    requires forall k | 0 <= k < |included| :: copies[k] == included[k].(instanceId := names[k], scopeId := scope, worldDefault := false)
    ensures Copies(activations, scope, chosen, names, copies, positions)
  {
    hide Increasing;
    var kept := KeptAt(activations, chosen);
    assert forall p: nat :: p < |activations| && kept(p).Some? <==> p < |activations| && chosen(activations[p]);
    forall k | 0 <= k < |copies| && positions[k] < |activations| ensures included[k] == activations[positions[k]] {
      assert kept(positions[k]) == Some(included[k]);
    }
  }

  function SelectionCopy(renaming: map<Id, Id>, scope: Id, selections: seq<ProviderSelection>): nat -> Option<ProviderSelection> {
    (p: nat) =>
      if p < |selections| && selections[p].provider.instanceId in renaming then
        Some(ProviderSelection(scope, selections[p].contract, NewOwner(renaming, selections[p].provider)))
      else None
  }

  function GrantCopy(renaming: map<Id, Id>, scope: Id, grants: seq<PermissionGrant>): nat -> Option<PermissionGrant> {
    (p: nat) =>
      if p < |grants| && grants[p].owner.instanceId in renaming then
        Some(PermissionGrant(scope, NewOwner(renaming, grants[p].owner), grants[p].permission))
      else None
  }

  function PreferenceCopy(renaming: map<Id, Id>, scope: Id, preferences: seq<PreferenceRecord>): nat -> Option<PreferenceRecord> {
    (p: nat) =>
      if p < |preferences| && preferences[p].owner.instanceId in renaming then
        Some(PreferenceRecord(scope, NewOwner(renaming, preferences[p].owner), preferences[p].key, preferences[p].value))
      else None
  }

  /** The copied policy is, record by record and in order, that of the renamed instances: same contract, permission, or
      key and value, and nothing else. */
  lemma PolicyIsCopied(profile: Records, scope: Id, chosen: ActivationRecord -> bool, names: seq<Id>)
    requires |Retain(profile.activations, chosen)| <= |names|
    ensures var renaming := Renaming(Retain(profile.activations, chosen), names);
      var r := Materialized(profile, scope, chosen, names);
      && Shows(|profile.preferredProviders|, SelectionCopy(renaming, scope, profile.preferredProviders), r.preferredProviders)
      && Shows(|profile.runtimePermissions|, GrantCopy(renaming, scope, profile.runtimePermissions), r.runtimePermissions)
      && Shows(|profile.preferences|, PreferenceCopy(renaming, scope, profile.preferences), r.preferences)
  {
    hide Renaming, Retain, Shows;
    var renaming := Renaming(Retain(profile.activations, chosen), names);
    FilterMapShows(profile.preferredProviders, RenameSelection(renaming, scope));
    SameImages(|profile.preferredProviders|, ImageAt(profile.preferredProviders, RenameSelection(renaming, scope)),
               SelectionCopy(renaming, scope, profile.preferredProviders), FilterMap(profile.preferredProviders, RenameSelection(renaming, scope)));
    FilterMapShows(profile.runtimePermissions, RenameGrant(renaming, scope));
    SameImages(|profile.runtimePermissions|, ImageAt(profile.runtimePermissions, RenameGrant(renaming, scope)),
               GrantCopy(renaming, scope, profile.runtimePermissions), FilterMap(profile.runtimePermissions, RenameGrant(renaming, scope)));
    FilterMapShows(profile.preferences, RenamePreference(renaming, scope));
    SameImages(|profile.preferences|, ImageAt(profile.preferences, RenamePreference(renaming, scope)),
               PreferenceCopy(renaming, scope, profile.preferences), FilterMap(profile.preferences, RenamePreference(renaming, scope)));
  }

  lemma SameImages<T>(n: nat, image: nat -> Option<T>, same: nat -> Option<T>, s: seq<T>)
    requires Shows(n, image, s) && forall p: nat | p < n :: same(p) == image(p)
    ensures Shows(n, same, s)
  {
    hide Increasing;
    var positions :| ShowsAt(n, image, s, positions);
    forall k | 0 <= k < |s| ensures same(positions[k]) == Some(s[k]) {
      assert positions[k] in positions;
    }
    assert ShowsAt(n, same, s, positions);
  }

  /** An instance is renamed exactly when it was included, and then all its policy comes along under the new name. */
  lemma PolicyComesAlong(profile: Records, scope: Id, chosen: ActivationRecord -> bool, names: seq<Id>)
    requires |Retain(profile.activations, chosen)| <= |names|
    ensures var renaming := Renaming(Retain(profile.activations, chosen), names);
      var r := Materialized(profile, scope, chosen, names);
      && (forall id :: id in renaming <==> exists a :: a in profile.activations && chosen(a) && a.instanceId == id)
      && (forall s | s in profile.preferredProviders && s.provider.instanceId in renaming ::
            ProviderSelection(scope, s.contract, NewOwner(renaming, s.provider)) in r.preferredProviders)
      && (forall g | g in profile.runtimePermissions && g.owner.instanceId in renaming ::
            PermissionGrant(scope, NewOwner(renaming, g.owner), g.permission) in r.runtimePermissions)
      && (forall p | p in profile.preferences && p.owner.instanceId in renaming ::
            PreferenceRecord(scope, NewOwner(renaming, p.owner), p.key, p.value) in r.preferences)
  {
    hide Renaming;
    var included := Retain(profile.activations, chosen);
    var renaming := Renaming(included, names);
    forall id ensures id in renaming <==> exists a :: a in profile.activations && chosen(a) && a.instanceId == id {
      IncludedAreRenamed(profile.activations, chosen, names, id);
    }
    forall s | s in profile.preferredProviders && s.provider.instanceId in renaming
      ensures RenameSelection(renaming, scope)(s) == Some(ProviderSelection(scope, s.contract, NewOwner(renaming, s.provider)))
    {
    }
    forall g | g in profile.runtimePermissions && g.owner.instanceId in renaming
      ensures RenameGrant(renaming, scope)(g) == Some(PermissionGrant(scope, NewOwner(renaming, g.owner), g.permission))
    {
    }
    forall p | p in profile.preferences && p.owner.instanceId in renaming
      ensures RenamePreference(renaming, scope)(p) == Some(PreferenceRecord(scope, NewOwner(renaming, p.owner), p.key, p.value))
    {
    }
  }

  function NewOwner(renaming: map<Id, Id>, owner: ComponentRef): ComponentRef
    requires owner.instanceId in renaming
  {
    ComponentRef(renaming[owner.instanceId], owner.componentId)
  }

  lemma IncludedAreRenamed(activations: seq<ActivationRecord>, chosen: ActivationRecord -> bool, names: seq<Id>, id: Id)
    requires |Retain(activations, chosen)| <= |names|
    ensures id in Renaming(Retain(activations, chosen), names) <==> exists a :: a in activations && chosen(a) && a.instanceId == id
  {
    hide Renaming, Retain;
    var included := Retain(activations, chosen);
    if id in Renaming(included, names) {
      var k := CarrierOf(included, names, id);
      assert included[k] in included;
    }
    if a :| a in activations && chosen(a) && a.instanceId == id {
      var k :| 0 <= k < |included| && included[k] == a;
      RenamedAt(included, names, k);
    }
  }

  /** Materializing a valid profile whose records share one scope gives a valid profile. */
  lemma MaterializedIsValid(profile: Records, source: Id, scope: Id, chosen: ActivationRecord -> bool, names: seq<Id>)
    requires ValidRecords(profile) && InScope(profile, source)
    requires |Retain(profile.activations, chosen)| <= |names| && Distinct(names)
    ensures ValidRecords(Materialized(profile, scope, chosen, names))
  {
    hide ValidPreferences, Unique, Tally;
    var included := Retain(profile.activations, chosen);
    var renaming := Renaming(included, names);
    forall a, b | a in renaming && b in renaming && renaming[a] == renaming[b] ensures a == b {
      RenamingIsInjective(included, names, a, b);
    }
    FilterMapUnique(profile.preferredProviders, RenameSelection(renaming, scope), SelectionKey);
    FilterMapUnique(profile.runtimePermissions, RenameGrant(renaming, scope), GrantKey);
    PreferencesStayValid(profile.preferences, source, scope, renaming);
  }

  lemma PreferencesStayValid(preferences: seq<PreferenceRecord>, source: Id, scope: Id, renaming: map<Id, Id>)
    requires ValidPreferences(preferences) && forall p | p in preferences :: p.scopeId == source
    requires forall a, b | a in renaming && b in renaming && renaming[a] == renaming[b] :: a == b
    ensures ValidPreferences(FilterMap(preferences, RenamePreference(renaming, scope)))
  {
    hide Tally, Unique, ValidPreference;
    var image := RenamePreference(renaming, scope);
    FilterMapUnique(preferences, image, PreferenceKey);
    forall s: Id, owner: ComponentRef ensures WithinQuota(FilterMap(preferences, image), s, owner) {
      if id :| id in renaming && renaming[id] == owner.instanceId && s == scope {
        var before := ComponentRef(id, owner.componentId);
        assert WithinQuota(preferences, source, before);
        TallyFilterMap(preferences, image, One(s, owner), One(source, before));
        TallyFilterMap(preferences, image, Size(s, owner), Size(source, before));
      } else {
        OthersOwnNothing(FilterMap(preferences, image), s, owner);
      }
    }
  }

  // ---------- several scopes ----------

  function SelectionPart(s: ProviderSelection): ContractKey { s.contract }
  function GrantPart(g: PermissionGrant): (ComponentRef, Id) { (g.owner, g.permission) }
  function PreferencePart(p: PreferenceRecord): (ComponentRef, Bytes) { (p.owner, p.key) }

  function Comes<T>(ids: set<Id>, owner: T -> ComponentRef): T -> bool {
    (x: T) => owner(x).instanceId in ids
  }

  function OneOf(owner: ComponentRef): PreferenceRecord -> nat {
    (p: PreferenceRecord) => if p.owner == owner then 1 else 0
  }

  function SizeOf(owner: ComponentRef): PreferenceRecord -> nat {
    (p: PreferenceRecord) => if p.owner == owner then |p.key| + |p.value| else 0
  }

  /** With the scopes dropped, no two records of the included instances coincide in what must be unique, and their
      owners stay within quota. */
  ghost predicate MergesCleanly(profile: Records, ids: set<Id>) {
    && Unique(Retain(profile.preferredProviders, Comes(ids, (s: ProviderSelection) => s.provider)), SelectionPart)
    && Unique(Retain(profile.runtimePermissions, Comes(ids, (g: PermissionGrant) => g.owner)), GrantPart)
    && Unique(Retain(profile.preferences, Comes(ids, (p: PreferenceRecord) => p.owner)), PreferencePart)
    && forall owner: ComponentRef | owner.instanceId in ids :: MergedQuota(profile.preferences, owner)
  }

  predicate MergedQuota(preferences: seq<PreferenceRecord>, owner: ComponentRef) {
    Tally(preferences, OneOf(owner)) <= MAX_PREFERENCE_ENTRIES && Tally(preferences, SizeOf(owner)) <= MAX_TOTAL_BYTES
  }

  /** A valid profile, of any number of scopes, is materialized to a valid one exactly when its included policy merges. */
  lemma MaterializedIsValidIff(profile: Records, scope: Id, chosen: ActivationRecord -> bool, names: seq<Id>)
    requires ValidRecords(profile) && |Retain(profile.activations, chosen)| <= |names| && Distinct(names)
    ensures ValidRecords(Materialized(profile, scope, chosen, names))
       <==> MergesCleanly(profile, Renaming(Retain(profile.activations, chosen), names).Keys)
  {
    hide ValidPreferences, Unique, Tally, Renaming, Comes, MergedQuota;
    var included := Retain(profile.activations, chosen);
    var renaming := Renaming(included, names);
    forall a, b | a in renaming && b in renaming && renaming[a] == renaming[b] ensures a == b {
      RenamingIsInjective(included, names, a, b);
    }
    SelectionsMergeIff(profile.preferredProviders, scope, renaming);
    GrantsMergeIff(profile.runtimePermissions, scope, renaming);
    PreferencesMergeIff(profile.preferences, scope, renaming);
  }

  lemma SelectionsMergeIff(selections: seq<ProviderSelection>, scope: Id, renaming: map<Id, Id>)
    ensures Unique(FilterMap(selections, RenameSelection(renaming, scope)), SelectionKey)
       <==> Unique(Retain(selections, Comes(renaming.Keys, (s: ProviderSelection) => s.provider)), SelectionPart)
  {
    hide Unique;
    FilterMapUniqueIff(selections, RenameSelection(renaming, scope), Comes(renaming.Keys, (s: ProviderSelection) => s.provider),
                       SelectionKey, SelectionPart);
  }

  lemma GrantsMergeIff(grants: seq<PermissionGrant>, scope: Id, renaming: map<Id, Id>)
    requires forall a, b | a in renaming && b in renaming && renaming[a] == renaming[b] :: a == b
    ensures Unique(FilterMap(grants, RenameGrant(renaming, scope)), GrantKey)
       <==> Unique(Retain(grants, Comes(renaming.Keys, (g: PermissionGrant) => g.owner)), GrantPart)
  {
    hide Unique;
    FilterMapUniqueIff(grants, RenameGrant(renaming, scope), Comes(renaming.Keys, (g: PermissionGrant) => g.owner), GrantKey, GrantPart);
  }

  lemma PreferencesMergeIff(preferences: seq<PreferenceRecord>, scope: Id, renaming: map<Id, Id>)
    requires ValidPreferences(preferences)
    requires forall a, b | a in renaming && b in renaming && renaming[a] == renaming[b] :: a == b
    ensures ValidPreferences(FilterMap(preferences, RenamePreference(renaming, scope)))
       <==> Unique(Retain(preferences, Comes(renaming.Keys, (p: PreferenceRecord) => p.owner)), PreferencePart)
            && forall owner: ComponentRef | owner.instanceId in renaming.Keys :: MergedQuota(preferences, owner)
  {
    hide Unique, Tally, ValidPreference, WithinQuota, MergedQuota;
    var image := RenamePreference(renaming, scope);
    var copies := FilterMap(preferences, image);
    FilterMapUniqueIff(preferences, image, Comes(renaming.Keys, (p: PreferenceRecord) => p.owner), PreferenceKey, PreferencePart);
    forall owner: ComponentRef | owner.instanceId in renaming.Keys
      ensures WithinQuota(copies, scope, NewOwner(renaming, owner)) <==> MergedQuota(preferences, owner)
    {
      QuotaMerges(preferences, scope, renaming, owner);
    }
    forall s: Id, owner: ComponentRef
      ensures WithinQuota(copies, s, owner) || (s == scope && exists id :: id in renaming && renaming[id] == owner.instanceId)
    {
      if !(s == scope && exists id :: id in renaming && renaming[id] == owner.instanceId) {
        OthersOwnNothing(copies, s, owner);
      }
    }
    if forall owner: ComponentRef | owner.instanceId in renaming.Keys :: MergedQuota(preferences, owner) {
      forall s: Id, owner: ComponentRef ensures WithinQuota(copies, s, owner) {
        if id :| id in renaming && renaming[id] == owner.instanceId && s == scope {
          assert NewOwner(renaming, ComponentRef(id, owner.componentId)) == owner;
        }
      }
    }
  }

  lemma QuotaMerges(preferences: seq<PreferenceRecord>, scope: Id, renaming: map<Id, Id>, owner: ComponentRef)
    requires forall a, b | a in renaming && b in renaming && renaming[a] == renaming[b] :: a == b
    requires owner.instanceId in renaming
    ensures WithinQuota(FilterMap(preferences, RenamePreference(renaming, scope)), scope, NewOwner(renaming, owner))
       <==> MergedQuota(preferences, owner)
  {
    hide Tally;
    var image, copy := RenamePreference(renaming, scope), NewOwner(renaming, owner);
    TallyThrough(preferences, image, One(scope, copy), OneOf(owner));
    TallyThrough(preferences, image, Size(scope, copy), SizeOf(owner));
  }

  // ---------- what validation lets through ----------

  const ONLY := ActivationRecord("s", EXTENSION_CONTENT, "art", "x", "one", true, false)
  const CHOICES := [ProviderSelection("one", ContractKey("c", 1), ComponentRef("x", "main")),
                    ProviderSelection("two", ContractKey("c", 1), ComponentRef("x", "main"))]

  /** Two scopes may choose a provider for one contract: such a profile is valid, and its copy is not. */
  lemma SeveralScopesMayCollide()
    ensures var profile, every := Records([ONLY], CHOICES, [], []), (a: ActivationRecord) => true;
      && ValidRecords(profile) && |Retain(profile.activations, every)| == 1
      && !ValidRecords(Materialized(profile, "world", every, ["n"]))
  {
    hide ValidRecords, MergesCleanly, Renaming;
    var profile, every := Records([ONLY], CHOICES, [], []), (a: ActivationRecord) => true;
    OneIncluded(ONLY, every, "n");
    CollidingIsValid(profile);
    CollidingDoesNotMerge(profile, {"x"});
    assert Distinct(["n"]);
    assert map["x" := "n"].Keys == {"x"};
    MaterializedIsValidIff(profile, "world", every, ["n"]);
  }

  lemma CollidingIsValid(profile: Records)
    requires profile == Records([ONLY], CHOICES, [], [])
    ensures ValidRecords(profile)
  {
    hide ValidPreferences;
    NoPreferencesAreValid();
  }

  lemma NoPreferencesAreValid()
    ensures ValidPreferences([])
  {
    hide WithinQuota;
    forall scope, owner ensures WithinQuota([], scope, owner) {
      OthersOwnNothing([], scope, owner);
    }
  }

  lemma CollidingDoesNotMerge(profile: Records, ids: set<Id>)
    requires profile == Records([ONLY], CHOICES, [], []) && "x" in ids
    ensures !MergesCleanly(profile, ids)
  {
    var comes := Comes(ids, (s: ProviderSelection) => s.provider);
    BothRetained(CHOICES[0], CHOICES[1], comes);
    assert CHOICES == [CHOICES[0], CHOICES[1]];
    assert SelectionPart(CHOICES[0]) == SelectionPart(CHOICES[1]);
    assert !Unique(Retain(CHOICES, comes), SelectionPart);
  }

  lemma OneIncluded(a: ActivationRecord, every: ActivationRecord -> bool, name: Id)
    requires every(a)
    ensures Retain([a], every) == [a] && Renaming([a], [name]) == map[a.instanceId := name]
  {
    assert [a][..0] == [];
    assert Retain([a], every) == Retain([], every) + [a] == [a];
  }

  lemma BothRetained<T(!new)>(x: T, y: T, keep: T -> bool)
    requires keep(x) && keep(y)
    ensures Retain([x, y], keep) == [x, y]
  {
    assert [x, y][..1] == [x] && [x][..0] == [];
    assert Retain([x], keep) == Retain([], keep) + [x] == [x];
  }

  /** A profile of one scope may name one instance in two activations and still be valid; materialized as a whole it
      is not renamed consistently. */
  lemma RepeatedInstanceIsValid()
    ensures var again := ONLY.(subject := "t");
      var profile, every := Records([ONLY, again], [], [], []), (a: ActivationRecord) => true;
      && ValidRecords(profile) && InScope(profile, "one")
      && Retain(profile.activations, every) == [ONLY, again] && !Unique([ONLY, again], InstanceOf)
  {
    hide ValidPreferences;
    var again, every := ONLY.(subject := "t"), (a: ActivationRecord) => true;
    NoPreferencesAreValid();
    BothRetained(ONLY, again, every);
    assert InstanceOf([ONLY, again][0]) == InstanceOf([ONLY, again][1]);
  }
}
