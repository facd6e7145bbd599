/** The composition profile: validation, owner quotas, mutators, and materialization into one scope. */
module Profile {
  import opened Identifiers
  import opened DependencyGraph
  import opened Saturation
  import opened ProfileRecords
  import opened Lists

  const MAX_PREFERENCE_ENTRIES: nat := 256
  const MAX_KEY_BYTES: nat := 128
  const MAX_VALUE_BYTES: nat := 64 * 1024
  const MAX_TOTAL_BYTES: nat := 1024 * 1024

  datatype ProfileError = InvalidPreference | QuotaExceeded | DuplicateSelection | DuplicateGrant | DuplicatePreference | ActivationNotFound
  datatype ProfileResult = Accepted | Rejected(error: ProfileError)

  // ---------- validity ----------

  predicate ValidPreference(key: Bytes, value: Bytes) {
    0 < |key| <= MAX_KEY_BYTES && |value| <= MAX_VALUE_BYTES
  }

  function SelectionKey(s: ProviderSelection): (Id, ContractKey) { (s.scopeId, s.contract) }
  function GrantKey(g: PermissionGrant): PermissionGrant { g }
  function PreferenceKey(p: PreferenceRecord): (Id, ComponentRef, Bytes) { (p.scopeId, p.owner, p.key) }

  predicate OwnedBy(p: PreferenceRecord, scope: Id, owner: ComponentRef) {
    p.scopeId == scope && p.owner == owner
  }

  function One(scope: Id, owner: ComponentRef): PreferenceRecord -> nat {
    (p: PreferenceRecord) => if OwnedBy(p, scope, owner) then 1 else 0
  }

  function Size(scope: Id, owner: ComponentRef): PreferenceRecord -> nat {
    (p: PreferenceRecord) => if OwnedBy(p, scope, owner) then |p.key| + |p.value| else 0
  }

  /** One owner's entries and bytes stay within its quota. */
  predicate WithinQuota(preferences: seq<PreferenceRecord>, scope: Id, owner: ComponentRef) {
    Tally(preferences, One(scope, owner)) <= MAX_PREFERENCE_ENTRIES && Tally(preferences, Size(scope, owner)) <= MAX_TOTAL_BYTES
  }

  ghost predicate ValidPreferences(preferences: seq<PreferenceRecord>) {
    && (forall p | p in preferences :: ValidPreference(p.key, p.value))
    && Unique(preferences, PreferenceKey)
    && forall scope, owner :: WithinQuota(preferences, scope, owner)
  }

  ghost predicate ValidRecords(r: Records) {
    Unique(r.preferredProviders, SelectionKey) && Unique(r.runtimePermissions, GrantKey) && ValidPreferences(r.preferences)
  }

  // ---------- the validator's own computation ----------

  /** The owner's entries and its saturating byte total, as the quota check folds them. */
  method CountOwned(preferences: seq<PreferenceRecord>, scope: Id, owner: ComponentRef) returns (count: nat, bytes: nat)
    ensures count == Tally(preferences, One(scope, owner))
    ensures bytes == if Tally(preferences, Size(scope, owner)) > USIZE_MAX then USIZE_MAX else Tally(preferences, Size(scope, owner))
  {
    count, bytes := 0, 0;
    for i := 0 to |preferences|
      invariant count == Tally(preferences[..i], One(scope, owner))
      invariant bytes == if Tally(preferences[..i], Size(scope, owner)) > USIZE_MAX then USIZE_MAX else Tally(preferences[..i], Size(scope, owner))
    {
      assert preferences[..i + 1][..i] == preferences[..i];
      if OwnedBy(preferences[i], scope, owner) {
        count := count + 1;
        bytes := SaturatingAdd(SaturatingAdd(bytes, |preferences[i].key|), |preferences[i].value|);
      }
    }
    assert preferences[..|preferences|] == preferences;
  }

  lemma OthersOwnNothing(preferences: seq<PreferenceRecord>, scope: Id, owner: ComponentRef)
    requires forall p | p in preferences :: !OwnedBy(p, scope, owner)
    ensures WithinQuota(preferences, scope, owner)
  {
    TallyNothing(preferences, One(scope, owner));
    TallyNothing(preferences, Size(scope, owner));
  }

  /** Whether two elements before position `n` share a key. */
  method FindRepeat<T, K(==)>(s: seq<T>, key: T -> K) returns (repeats: bool)
    ensures repeats <==> !Unique(s, key)
  {
    var seen: set<K> := {};
    for i := 0 to |s|
      invariant forall j | 0 <= j < i :: key(s[j]) in seen
      invariant forall k | k in seen :: exists j :: 0 <= j < i && key(s[j]) == k
      invariant Unique(s[..i], key)
    {
      if key(s[i]) in seen {
        return true;
      }
      assert s[..i + 1] == s[..i] + [s[i]];
      assert forall j | 0 <= j < i :: s[..i][j] == s[j] && key(s[j]) in seen;
      UniqueAppend(s[..i], s[i], key);
      seen := seen + {key(s[i])};
    }
    assert s[..|s|] == s;
    return false;
  }

  /** The first `n` records are well formed and under different keys. */
  ghost predicate CleanBefore(preferences: seq<PreferenceRecord>, n: nat) {
    && n <= |preferences| && (forall j | 0 <= j < n :: ValidPreference(preferences[j].key, preferences[j].value))
    && forall j, k | 0 <= j < k < n :: PreferenceKey(preferences[j]) != PreferenceKey(preferences[k])
  }

  /** The first record that is malformed or repeats a key decides the error; quotas are looked at last. */
  ghost predicate PreferencesFail(preferences: seq<PreferenceRecord>, e: ProfileError) {
    match e
    case InvalidPreference =>
      exists i :: 0 <= i < |preferences| && CleanBefore(preferences, i) && !ValidPreference(preferences[i].key, preferences[i].value)
    case DuplicatePreference =>
      exists i, j :: 0 <= j < i < |preferences| && CleanBefore(preferences, i) && ValidPreference(preferences[i].key, preferences[i].value)
                     && PreferenceKey(preferences[j]) == PreferenceKey(preferences[i])
    case QuotaExceeded =>
      CleanBefore(preferences, |preferences|) && exists scope, owner :: !WithinQuota(preferences, scope, owner)
    case _ => false
  }

  method ValidatePreferences(preferences: seq<PreferenceRecord>) returns (r: ProfileResult)
    ensures r.Accepted? <==> ValidPreferences(preferences)
    ensures r.Rejected? ==> PreferencesFail(preferences, r.error)
  {
    hide WithinQuota, ValidPreference;
    var seen: set<(Id, ComponentRef, Bytes)> := {};
    for i := 0 to |preferences|
      invariant CleanBefore(preferences, i)
      invariant forall k :: k in seen <==> exists j :: 0 <= j < i && PreferenceKey(preferences[j]) == k
    {
      if !ValidPreference(preferences[i].key, preferences[i].value) {
        assert preferences[i] in preferences;
        return Rejected(InvalidPreference);
      }
      if PreferenceKey(preferences[i]) in seen {
        return Rejected(DuplicatePreference);
      }
      seen := seen + {PreferenceKey(preferences[i])};
    }
    r := ValidateQuotas(preferences);
  }

  method ValidateQuotas(preferences: seq<PreferenceRecord>) returns (r: ProfileResult)
    requires CleanBefore(preferences, |preferences|)
    ensures r.Accepted? <==> ValidPreferences(preferences)
    ensures r.Rejected? ==> PreferencesFail(preferences, r.error)
  {
    for i := 0 to |preferences|
      invariant forall j | 0 <= j < i :: WithinQuota(preferences, preferences[j].scopeId, preferences[j].owner)
    {
      var count, bytes := CountOwned(preferences, preferences[i].scopeId, preferences[i].owner);
      if count > MAX_PREFERENCE_ENTRIES || bytes > MAX_TOTAL_BYTES {
        assert !WithinQuota(preferences, preferences[i].scopeId, preferences[i].owner);
        return Rejected(QuotaExceeded);
      }
    }
    forall scope, owner ensures WithinQuota(preferences, scope, owner) {
      if j :| 0 <= j < |preferences| && OwnedBy(preferences[j], scope, owner) {
      } else {
        OthersOwnNothing(preferences, scope, owner);
      }
    }
    return Accepted;
  }

  /** `validate` accepts exactly the valid profiles. */
  method Validate(r: Records) returns (result: ProfileResult)
    ensures result.Accepted? <==> ValidRecords(r)
    ensures result.Rejected? ==>
      if !Unique(r.preferredProviders, SelectionKey) then result.error.DuplicateSelection?
      else if !Unique(r.runtimePermissions, GrantKey) then result.error.DuplicateGrant?
      else PreferencesFail(r.preferences, result.error)
  {
    hide ValidPreferences, Unique, PreferencesFail;
    var repeats := FindRepeat(r.preferredProviders, SelectionKey);
    if repeats {
      return Rejected(DuplicateSelection);
    }
    repeats := FindRepeat(r.runtimePermissions, GrantKey);
    if repeats {
      return Rejected(DuplicateGrant);
    }
    result := ValidatePreferences(r.preferences);
  }

  // ---------- the profile object ----------

  class CompositionProfile {
    var activations: seq<ActivationRecord>
    var preferredProviders: seq<ProviderSelection>
    var runtimePermissions: seq<PermissionGrant>
    var preferences: seq<PreferenceRecord>

    function Contents(): Records
      reads this
    {
      Records(activations, preferredProviders, runtimePermissions, preferences)
    }

    constructor ()
      ensures Contents() == Records([], [], [], []) && ValidRecords(Contents())
    {
      activations, preferredProviders, runtimePermissions, preferences := [], [], [], [];
    }

    /** The value of a key is set exactly when the whole list would still validate with it. */
    method SetPreference(scope: Id, owner: ComponentRef, key: Bytes, value: Bytes) returns (r: ProfileResult)
      requires ValidRecords(Contents())
      modifies this`preferences
      ensures ValidRecords(Contents())
      ensures r.Accepted? <==> ValidPreferences(WithPreference(old(preferences), PreferenceRecord(scope, owner, key, value)))
      ensures preferences == if r.Accepted? then WithPreference(old(preferences), PreferenceRecord(scope, owner, key, value)) else old(preferences)
      ensures r.Rejected? ==> r.error == if ValidPreference(key, value) then QuotaExceeded else InvalidPreference
      ensures r.Accepted? ==> forall p :: p in preferences <==>
        p == PreferenceRecord(scope, owner, key, value) || (p in old(preferences) && PreferenceKey(p) != (scope, owner, key))
    {
      hide ValidPreferences, Unique, WithPreference, Tally;
      var p := PreferenceRecord(scope, owner, key, value);
      ChangeIsValid(preferences, p);
      Recount(preferences, p);
      if !ValidPreference(key, value) {
        return Rejected(InvalidPreference);
      }
      var current := First(preferences, Keyed((scope, owner, key)));
      var existingBytes := if current.Some? then |preferences[current.value].key| + |preferences[current.value].value| else 0;
      var ownedCount, ownedBytes := CountOwned(preferences, scope, owner);
      var nextCount := if current.Some? then ownedCount else SaturatingAdd(ownedCount, 1);
      var nextBytes := SaturatingAdd(SaturatingAdd(SaturatingSub(ownedBytes, existingBytes), |key|), |value|);
      if nextCount > MAX_PREFERENCE_ENTRIES || nextBytes > MAX_TOTAL_BYTES {
        return Rejected(QuotaExceeded);
      }
      assert ValidPreferences(WithPreference(preferences, p));
      StoredInPlace(preferences, p);
      OnlyOneChanges(preferences, p);
      if current.Some? {
        preferences := preferences[current.value := preferences[current.value].(value := value)];
      } else {
        preferences := preferences + [p];
      }
      assert preferences == WithPreference(old(preferences), p);
      return Accepted;
    }

    method GetPreference(scope: Id, owner: ComponentRef, key: Bytes) returns (r: ProfileResult, value: Option<Bytes>)
      requires ValidRecords(Contents())
      ensures r == if 0 < |key| <= MAX_KEY_BYTES then Accepted else Rejected(InvalidPreference)
      ensures r.Accepted? ==> forall v :: value == Some(v) <==> PreferenceRecord(scope, owner, key, v) in preferences
    {
      if !ValidPreference(key, []) {
        return Rejected(InvalidPreference), None;
      }
      var at := First(preferences, Keyed((scope, owner, key)));
      value := if at.Some? then Some(preferences[at.value].value) else None;
      forall v ensures value == Some(v) <==> PreferenceRecord(scope, owner, key, v) in preferences {
        OneRecordPerKey(preferences, (scope, owner, key), v);
      }
      return Accepted, value;
    }

    method DeletePreference(scope: Id, owner: ComponentRef, key: Bytes) returns (r: ProfileResult)
      requires ValidRecords(Contents())
      modifies this`preferences
      ensures ValidRecords(Contents())
      ensures r == if 0 < |key| <= MAX_KEY_BYTES then Accepted else Rejected(InvalidPreference)
      ensures forall p :: p in preferences <==> p in old(preferences) && !(r.Accepted? && PreferenceKey(p) == (scope, owner, key))
    {
      if !ValidPreference(key, []) {
        return Rejected(InvalidPreference);
      }
      RetainValid(preferences, (p: PreferenceRecord) => !(OwnedBy(p, scope, owner) && p.key == key));
      preferences := Retain(preferences, (p: PreferenceRecord) => !(OwnedBy(p, scope, owner) && p.key == key));
      return Accepted;
    }

    method SetPreferredProvider(selection: ProviderSelection)
      requires ValidRecords(Contents())
      modifies this`preferredProviders
      ensures ValidRecords(Contents())
      ensures forall s :: s in preferredProviders <==> s == selection || (s in old(preferredProviders) && SelectionKey(s) != SelectionKey(selection))
    {
      hide ValidPreferences;
      var existing := First(preferredProviders, SelectionAt(SelectionKey(selection)));
      if existing.Some? {
        SelectionReplaced(preferredProviders, existing.value, selection);
        preferredProviders := preferredProviders[existing.value := selection];
      } else {
        UniqueAppend(preferredProviders, selection, SelectionKey);
        preferredProviders := preferredProviders + [selection];
      }
    }

    method ClearPreferredProvider(scope: Id, contract: ContractKey)
      requires ValidRecords(Contents())
      modifies this`preferredProviders
      ensures ValidRecords(Contents())
      ensures forall s :: s in preferredProviders <==> s in old(preferredProviders) && SelectionKey(s) != (scope, contract)
    {
      hide ValidPreferences;
      RetainUnique(preferredProviders, (s: ProviderSelection) => s.scopeId != scope || s.contract != contract, SelectionKey);
      preferredProviders := Retain(preferredProviders, (s: ProviderSelection) => s.scopeId != scope || s.contract != contract);
    }

    method GrantRuntimePermission(grant: PermissionGrant)
      requires ValidRecords(Contents())
      modifies this`runtimePermissions
      ensures ValidRecords(Contents())
      ensures forall g :: g in runtimePermissions <==> g == grant || g in old(runtimePermissions)
    {
      hide ValidPreferences;
      if grant !in runtimePermissions {
        UniqueAppend(runtimePermissions, grant, GrantKey);
        runtimePermissions := runtimePermissions + [grant];
      }
    }

    method RevokeRuntimePermission(grant: PermissionGrant)
      requires ValidRecords(Contents())
      modifies this`runtimePermissions
      ensures ValidRecords(Contents())
      ensures forall g :: g in runtimePermissions <==> g != grant && g in old(runtimePermissions)
    {
      hide ValidPreferences;
      RetainUnique(runtimePermissions, (g: PermissionGrant) => g != grant, GrantKey);
      runtimePermissions := Retain(runtimePermissions, (g: PermissionGrant) => g != grant);
    }

    /** Selects an artifact for a subject: replaces the subject's activation in that scope or appends one. */
    method Upsert(activation: ActivationRecord, overrideEnabled: Option<bool>) returns (enabled: bool)
      requires ValidRecords(Contents())
      modifies this`activations
      ensures ValidRecords(Contents())
      ensures match First(old(activations), SubjectIn(activation.subject, activation.scopeId))
        case Some(i) =>
          && FirstIn(old(activations), activation.subject, activation.scopeId, i)
          && enabled == (if overrideEnabled.Some? then overrideEnabled.value else old(activations)[i].enabled)
          && activations == old(activations)[i := activation.(enabled := enabled, worldDefault := old(activations)[i].worldDefault)]
        case None =>
          && (forall a | a in old(activations) :: a.subject != activation.subject || a.scopeId != activation.scopeId)
          && enabled == (if overrideEnabled.Some? then overrideEnabled.value else activation.enabled)
          && activations == old(activations) + [activation.(enabled := enabled)]
    {
      var at := First(activations, SubjectIn(activation.subject, activation.scopeId));
      if at.Some? {
        var existing := activations[at.value];
        enabled := if overrideEnabled.Some? then overrideEnabled.value else existing.enabled;
        activations := activations[at.value := activation.(enabled := enabled, worldDefault := existing.worldDefault)];
        return;
      }
      enabled := if overrideEnabled.Some? then overrideEnabled.value else activation.enabled;
      activations := activations + [activation.(enabled := enabled)];
    }

    method SetEnabled(subject: Id, enabled: bool) returns (r: ProfileResult)
      requires ValidRecords(Contents())
      modifies this`activations
      ensures ValidRecords(Contents())
      ensures match First(old(activations), Subject(subject))
        case Some(i) =>
          && FirstOf(old(activations), subject, i)
          && r.Accepted? && activations == old(activations)[i := old(activations)[i].(enabled := enabled)]
        case None =>
          && (forall a | a in old(activations) :: a.subject != subject)
          && r == Rejected(ActivationNotFound) && activations == old(activations)
    {
      var at := First(activations, Subject(subject));
      if at.None? {
        return Rejected(ActivationNotFound);
      }
      activations := activations[at.value := activations[at.value].(enabled := enabled)];
      return Accepted;
    }

    /** Removes one activation with every policy record of its instance; no dangling record stays behind. */
    method RemoveActivation(subject: Id) returns (r: ProfileResult)
      requires ValidRecords(Contents())
      modifies this
      ensures ValidRecords(Contents())
      ensures match First(old(activations), Subject(subject))
        case None =>
          && (forall a | a in old(activations) :: a.subject != subject)
          && r == Rejected(ActivationNotFound) && Contents() == old(Contents())
        case Some(i) =>
          var removed := old(activations)[i];
          && FirstOf(old(activations), subject, i)
          && r.Accepted? && activations == old(activations)[..i] + old(activations)[i + 1..]
          && runtimePermissions == Retain(old(runtimePermissions), GrantApart(removed))
          && (forall g :: g in runtimePermissions <==>
                g in old(runtimePermissions) && (g.scopeId != removed.scopeId || g.owner.instanceId != removed.instanceId))
          && preferredProviders == Retain(old(preferredProviders), SelectionApart(removed))
          && (forall s :: s in preferredProviders <==>
                s in old(preferredProviders) && (s.scopeId != removed.scopeId || s.provider.instanceId != removed.instanceId))
          && preferences == Retain(old(preferences), PreferenceApart(removed))
          && (forall p :: p in preferences <==>
                p in old(preferences) && (p.scopeId != removed.scopeId || p.owner.instanceId != removed.instanceId))
    {
      hide ValidPreferences, Unique;
      var at := First(activations, Subject(subject));
      if at.None? {
        return Rejected(ActivationNotFound);
      }
      var removed := activations[at.value];
      activations := activations[..at.value] + activations[at.value + 1..];
      RetainUnique(runtimePermissions, GrantApart(removed), GrantKey);
      runtimePermissions := Retain(runtimePermissions, GrantApart(removed));
      RetainUnique(preferredProviders, SelectionApart(removed), SelectionKey);
      preferredProviders := Retain(preferredProviders, SelectionApart(removed));
      RetainValid(preferences, PreferenceApart(removed));
      preferences := Retain(preferences, PreferenceApart(removed));
      return Accepted;
    }
  }

  // ---------- preferences ----------

  function Keyed(key: (Id, ComponentRef, Bytes)): PreferenceRecord -> bool {
    (p: PreferenceRecord) => PreferenceKey(p) == key
  }

  /** The list with one owner's key set to a value, in place when it is there already. */
  function WithPreference(preferences: seq<PreferenceRecord>, p: PreferenceRecord): seq<PreferenceRecord> {
    var at := First(preferences, Keyed(PreferenceKey(p)));
    if at.Some? then preferences[at.value := p] else preferences + [p]
  }

  /** The bytes the replaced record gives back. */
  function Returned(preferences: seq<PreferenceRecord>, p: PreferenceRecord): nat {
    var at := First(preferences, Keyed(PreferenceKey(p)));
    if at.Some? then |preferences[at.value].key| + |preferences[at.value].value| else 0
  }

  /** The changed list holds the record and every record of another key. */
  lemma OnlyOneChanges(preferences: seq<PreferenceRecord>, p: PreferenceRecord)
    requires ValidPreferences(preferences)
    ensures forall q :: q in WithPreference(preferences, p) <==> q == p || (q in preferences && PreferenceKey(q) != PreferenceKey(p))
  {
    var at, after := First(preferences, Keyed(PreferenceKey(p))), WithPreference(preferences, p);
    forall q ensures q in after <==> q == p || (q in preferences && PreferenceKey(q) != PreferenceKey(p)) {
      if q in preferences && PreferenceKey(q) != PreferenceKey(p) {
        var i :| 0 <= i < |preferences| && preferences[i] == q;
        assert after[i] == q;
      }
      if at.Some? {
        assert after[at.value] == p;
        if q in after && q != p {
          var i :| 0 <= i < |after| && after[i] == q;
          assert preferences[i] == q && PreferenceKey(preferences[i]) != PreferenceKey(preferences[at.value]);
        }
      } else {
        assert after[|preferences|] == p;
        assert forall i | 0 <= i < |preferences| :: after[i] == preferences[i];
      }
    }
  }

  /** Replacing only the value of the record found gives the same list. */
  lemma StoredInPlace(preferences: seq<PreferenceRecord>, p: PreferenceRecord)
    ensures var at := First(preferences, Keyed(PreferenceKey(p)));
      WithPreference(preferences, p) == if at.Some? then preferences[at.value := preferences[at.value].(value := p.value)] else preferences + [p]
  {
  }

  /** The incremental accounting of one change agrees with counting the changed list again. */
  lemma Recount(preferences: seq<PreferenceRecord>, p: PreferenceRecord)
    ensures var at := First(preferences, Keyed(PreferenceKey(p)));
      var after := WithPreference(preferences, p);
      && Tally(after, One(p.scopeId, p.owner)) == Tally(preferences, One(p.scopeId, p.owner)) + (if at.Some? then 0 else 1)
      && Returned(preferences, p) <= Tally(preferences, Size(p.scopeId, p.owner))
      && Tally(after, Size(p.scopeId, p.owner)) == Tally(preferences, Size(p.scopeId, p.owner)) - Returned(preferences, p) + |p.key| + |p.value|
      && forall scope, owner | !OwnedBy(p, scope, owner) ::
           Tally(after, One(scope, owner)) == Tally(preferences, One(scope, owner)) && Tally(after, Size(scope, owner)) == Tally(preferences, Size(scope, owner))
  {
    var at := First(preferences, Keyed(PreferenceKey(p)));
    forall scope, owner
      ensures var after := WithPreference(preferences, p);
        && Tally(after, One(scope, owner)) == Tally(preferences, One(scope, owner)) + (if at.None? && OwnedBy(p, scope, owner) then 1 else 0)
        && (at.Some? ==> Tally(after, Size(scope, owner)) + Size(scope, owner)(preferences[at.value]) == Tally(preferences, Size(scope, owner)) + Size(scope, owner)(p))
        && (at.None? ==> Tally(after, Size(scope, owner)) == Tally(preferences, Size(scope, owner)) + Size(scope, owner)(p))
    {
      if at.Some? {
        TallyUpdate(preferences, at.value, p, One(scope, owner));
        TallyUpdate(preferences, at.value, p, Size(scope, owner));
      } else {
        TallyAppend(preferences, p, One(scope, owner));
        TallyAppend(preferences, p, Size(scope, owner));
      }
    }
    if at.Some? {
      TallyIncludes(preferences, at.value, Size(p.scopeId, p.owner));
    }
  }

  /** A change keeps everything valid exactly when the value fits and the owner's incremental totals do. */
  lemma ChangeIsValid(preferences: seq<PreferenceRecord>, p: PreferenceRecord)
    requires ValidPreferences(preferences)
    ensures WithinQuota(preferences, p.scopeId, p.owner)
    ensures ValidPreferences(WithPreference(preferences, p)) <==>
      && ValidPreference(p.key, p.value)
      && Tally(preferences, One(p.scopeId, p.owner)) + (if First(preferences, Keyed(PreferenceKey(p))).Some? then 0 else 1) <= MAX_PREFERENCE_ENTRIES
      && Tally(preferences, Size(p.scopeId, p.owner)) - Returned(preferences, p) + |p.key| + |p.value| <= MAX_TOTAL_BYTES
  {
    hide First, Unique;
    var after := WithPreference(preferences, p);
    Recount(preferences, p);
    ChangeStaysUnique(preferences, p);
    assert p in after;
    assert ValidPreferences(after) ==> WithinQuota(after, p.scopeId, p.owner);
    forall scope, owner | !OwnedBy(p, scope, owner) ensures WithinQuota(after, scope, owner) {
      assert WithinQuota(preferences, scope, owner);
    }
  }

  lemma ChangeStaysUnique(preferences: seq<PreferenceRecord>, p: PreferenceRecord)
    requires Unique(preferences, PreferenceKey)
    ensures Unique(WithPreference(preferences, p), PreferenceKey)
    ensures p in WithPreference(preferences, p)
    ensures forall q | q in WithPreference(preferences, p) :: q == p || q in preferences
  {
    var at := First(preferences, Keyed(PreferenceKey(p)));
    if at.Some? {
      UniqueUpdate(preferences, at.value, p, PreferenceKey);
      assert preferences[at.value := p][at.value] == p;
    } else {
      UniqueAppend(preferences, p, PreferenceKey);
    }
  }

  /** A key has at most one record, the one found. */
  lemma OneRecordPerKey(preferences: seq<PreferenceRecord>, key: (Id, ComponentRef, Bytes), v: Bytes)
    requires Unique(preferences, PreferenceKey)
    ensures var at := First(preferences, Keyed(key));
      PreferenceRecord(key.0, key.1, key.2, v) in preferences <==> at.Some? && preferences[at.value].value == v
  {
    var at := First(preferences, Keyed(key));
    var p := PreferenceRecord(key.0, key.1, key.2, v);
    if i :| 0 <= i < |preferences| && preferences[i] == p {
      assert PreferenceKey(preferences[i]) == key;
    }
    if at.Some? {
      assert preferences[at.value] in preferences;
      assert preferences[at.value] == PreferenceRecord(key.0, key.1, key.2, preferences[at.value].value);
    }
  }

  lemma RetainValid(preferences: seq<PreferenceRecord>, keep: PreferenceRecord -> bool)
    requires ValidPreferences(preferences)
    ensures ValidPreferences(Retain(preferences, keep))
  {
    RetainUnique(preferences, keep, PreferenceKey);
    forall scope, owner ensures WithinQuota(Retain(preferences, keep), scope, owner) {
      assert WithinQuota(preferences, scope, owner);
      TallyRetain(preferences, keep, One(scope, owner));
      TallyRetain(preferences, keep, Size(scope, owner));
    }
  }

  // ---------- other records ----------

  function SelectionAt(key: (Id, ContractKey)): ProviderSelection -> bool {
    (s: ProviderSelection) => SelectionKey(s) == key
  }

  function Subject(subject: Id): ActivationRecord -> bool {
    (a: ActivationRecord) => a.subject == subject
  }

  function SubjectIn(subject: Id, scope: Id): ActivationRecord -> bool {
    (a: ActivationRecord) => a.subject == subject && a.scopeId == scope
  }

  /** The first activation of the subject. */
  ghost predicate FirstOf(activations: seq<ActivationRecord>, subject: Id, i: nat) {
    i < |activations| && activations[i].subject == subject && forall j | 0 <= j < i :: activations[j].subject != subject
  }

  /** The first activation of the subject in the scope. */
  ghost predicate FirstIn(activations: seq<ActivationRecord>, subject: Id, scope: Id, i: nat) {
    && i < |activations| && activations[i].subject == subject && activations[i].scopeId == scope
    && forall j | 0 <= j < i :: activations[j].subject != subject || activations[j].scopeId != scope
  }

  // The policy records apart from those of a removed activation's instance.

  function GrantApart(removed: ActivationRecord): PermissionGrant -> bool {
    (g: PermissionGrant) => g.scopeId != removed.scopeId || g.owner.instanceId != removed.instanceId
  }

  function SelectionApart(removed: ActivationRecord): ProviderSelection -> bool {
    (s: ProviderSelection) => s.scopeId != removed.scopeId || s.provider.instanceId != removed.instanceId
  }

  function PreferenceApart(removed: ActivationRecord): PreferenceRecord -> bool {
    (p: PreferenceRecord) => p.scopeId != removed.scopeId || p.owner.instanceId != removed.instanceId
  }

  lemma SelectionReplaced(s: seq<ProviderSelection>, i: nat, selection: ProviderSelection)
    requires Unique(s, SelectionKey) && i < |s| && SelectionKey(s[i]) == SelectionKey(selection)
    ensures Unique(s[i := selection], SelectionKey)
    ensures forall x :: x in s[i := selection] <==> x == selection || (x in s && SelectionKey(x) != SelectionKey(selection))
  {
    UniqueUpdate(s, i, selection, SelectionKey);
    var t := s[i := selection];
    forall x ensures x in t <==> x == selection || (x in s && SelectionKey(x) != SelectionKey(selection)) {
      if j :| 0 <= j < |t| && t[j] == x {
      }
      if j :| 0 <= j < |s| && s[j] == x && SelectionKey(x) != SelectionKey(selection) {
        assert t[j] == x;
      }
      assert t[i] == selection;
    }
  }
}
