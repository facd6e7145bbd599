/** The persistent records of one composition profile. */
module ProfileRecords {
  import opened Identifiers

  // UTF-8 text whose byte length is what quotas count.
  type Bytes = seq<bv8>

  const EXTENSION_CONTENT := "rintawa.extension@1"

  datatype ActivationRecord = ActivationRecord(subject: Id, content: string, artifact: Id, instanceId: Id, scopeId: Id,
                                               enabled: bool, worldDefault: bool)
  datatype ProviderSelection = ProviderSelection(scopeId: Id, contract: ContractKey, provider: ComponentRef)
  datatype PermissionGrant = PermissionGrant(scopeId: Id, owner: ComponentRef, permission: Id)
  datatype PreferenceRecord = PreferenceRecord(scopeId: Id, owner: ComponentRef, key: Bytes, value: Bytes)

  datatype Records = Records(activations: seq<ActivationRecord>, preferredProviders: seq<ProviderSelection>,
                             runtimePermissions: seq<PermissionGrant>, preferences: seq<PreferenceRecord>)

  /** Every record names the one scope. */
  ghost predicate InScope(r: Records, scope: Id) {
    && (forall a | a in r.activations :: a.scopeId == scope)
    && (forall s | s in r.preferredProviders :: s.scopeId == scope)
    && (forall g | g in r.runtimePermissions :: g.scopeId == scope)
    && (forall p | p in r.preferences :: p.scopeId == scope)
  }
}
