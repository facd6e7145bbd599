/** The quota-bounded table of one-shot user resources. */
module UserResources {
  import opened Identifiers
  import opened Saturation
  import opened RuntimeEffects
  import opened ProfileRecords
  import opened Strings

  const MAX_USER_RESOURCES: nat := 32
  const MAX_RESOURCE_BYTES: nat := 8 * 1024 * 1024
  const MAX_RESOURCE_TOTAL_BYTES: nat := 32 * 1024 * 1024
  const MAX_MEDIA_TYPE_BYTES: nat := 128
  const MAX_NAME_BYTES: nat := 512

  datatype ResourceRef = ResourceRef(id: Id, size: nat, mediaType: string, name: Option<string>)
  datatype StoredResource = StoredResource(reference: ResourceRef, bytes: Bytes)
  type Resources = map<Id, StoredResource>

  datatype ResourceError = Rejected | QueueFull | NotFound
  datatype ResourceResult<T> = Granted(value: T) | Denied(error: ResourceError)

  // ---------- what may be imported ----------

  predicate ValidMediaType(s: string) {
    && 0 < Utf8Length(s) <= MAX_MEDIA_TYPE_BYTES
    && (forall i | 0 <= i < |s| :: !('A' <= s[i] <= 'Z')) && '/' in s
  }

  predicate ValidName(name: Option<string>) {
    name.Some? ==> !Blank(name.value) && Utf8Length(name.value) <= MAX_NAME_BYTES && '/' !in name.value && '\\' !in name.value
  }

  predicate Importable(bytes: Bytes, mediaType: string, name: Option<string>) {
    0 < |bytes| <= MAX_RESOURCE_BYTES && ValidMediaType(mediaType) && ValidName(name)
  }

  // ---------- the ledger ----------

  /** The stored bytes of all resources together. */
  ghost function TotalOf(resources: Resources): nat {
    if resources == map[] then 0
    else
      var id :| id in resources;
      |resources[id].bytes| + TotalOf(resources - {id})
  }

  /** The total does not depend on the order in which resources are counted. */
  lemma {:induction false} TotalWithout(resources: Resources, id: Id)
    requires id in resources
    ensures TotalOf(resources) == |resources[id].bytes| + TotalOf(resources - {id})
    decreases |resources|
  {
    var picked :| picked in resources && TotalOf(resources) == |resources[picked].bytes| + TotalOf(resources - {picked});
    if picked != id {
      assert id in resources - {picked} && picked in resources - {id};
      SmallerMap(resources, picked);
      SmallerMap(resources, id);
      TotalWithout(resources - {picked}, id);
      TotalWithout(resources - {id}, picked);
      assert resources - {picked} - {id} == resources - {id} - {picked};
    }
  }

  lemma SmallerMap(resources: Resources, id: Id)
    requires id in resources
    ensures |resources - {id}| < |resources|
  {
    assert (resources - {id}).Keys == resources.Keys - {id};
  }

  lemma TotalWith(resources: Resources, id: Id, r: StoredResource)
    requires id !in resources
    ensures TotalOf(resources[id := r]) == TotalOf(resources) + |r.bytes|
  {
    TotalWithout(resources[id := r], id);
    assert resources[id := r] - {id} == resources;
  }

  class UserResourceControl {
    var resources: Resources
    var totalBytes: nat

    /** The running total is the sum of the stored lengths, within both quotas. */
    ghost predicate Valid()
      reads this
    {
      && totalBytes == TotalOf(resources)
      && totalBytes <= MAX_RESOURCE_TOTAL_BYTES && |resources| <= MAX_USER_RESOURCES
      && forall id | id in resources ::
           resources[id].reference.id == id && resources[id].reference.size == |resources[id].bytes|
    }

    constructor ()
      ensures Valid() && resources == map[]
    {
      resources, totalBytes := map[], 0;
    }

    /** Stores one resource under a new id, exactly when it is well formed and both quotas allow it. */
    method Import(bytes: Bytes, mediaType: string, name: Option<string>, id: Id) returns (r: ResourceResult<ResourceRef>)
      requires Valid()
      modifies this
      ensures Valid()
      ensures r.Granted? <==> Importable(bytes, mediaType, name) && |old(resources)| < MAX_USER_RESOURCES
                              && TotalOf(old(resources)) + |bytes| <= MAX_RESOURCE_TOTAL_BYTES && id !in old(resources)
      ensures r == Denied(QueueFull) <==> Importable(bytes, mediaType, name)
                                          && (|old(resources)| >= MAX_USER_RESOURCES || TotalOf(old(resources)) + |bytes| > MAX_RESOURCE_TOTAL_BYTES)
      ensures r.Denied? ==> r.error.QueueFull? || r.error.Rejected?
      ensures r.Granted? ==> r.value == ResourceRef(id, |bytes|, mediaType, name)
      ensures resources == if r.Granted? then old(resources)[id := StoredResource(r.value, bytes)] else old(resources)
    {
      if !Importable(bytes, mediaType, name) {
        return Denied(Rejected);
      }
      var nextTotal := SaturatingAdd(totalBytes, |bytes|);
      if |resources| >= MAX_USER_RESOURCES || nextTotal > MAX_RESOURCE_TOTAL_BYTES {
        return Denied(QueueFull);
      }
      if id in resources {
        return Denied(Rejected);
      }
      var reference := ResourceRef(id, |bytes|, mediaType, name);
      TotalWith(resources, id, StoredResource(reference, bytes));
      resources := resources[id := StoredResource(reference, bytes)];
      totalBytes := nextTotal;
      return Granted(reference);
    }

    /** Only the exact reference that import returned reads the bytes back. */
    method Read(reference: ResourceRef, maximumBytes: nat) returns (r: ResourceResult<Bytes>)
      requires Valid()
      ensures forall bytes :: r == Granted(bytes) <==>
        reference.id in resources && resources[reference.id] == StoredResource(reference, bytes) && |bytes| <= maximumBytes
      ensures r.Denied? ==> r.error == if reference.id in resources then Rejected else NotFound
    {
      if reference.id !in resources {
        return Denied(NotFound);
      }
      var stored := resources[reference.id];
      if stored.reference != reference || |stored.bytes| > maximumBytes {
        return Denied(Rejected);
      }
      return Granted(stored.bytes);
    }

    /** Releasing gives the resource's bytes back to the quota. */
    method Release(reference: ResourceRef) returns (error: Option<ResourceError>)
      requires Valid()
      modifies this
      ensures Valid()
      ensures error.None? <==> reference.id in old(resources) && old(resources)[reference.id].reference == reference
      ensures error.Some? ==> error.value == if reference.id in old(resources) then Rejected else NotFound
      ensures resources == if error.None? then old(resources) - {reference.id} else old(resources)
    {
      if reference.id !in resources {
        return Some(NotFound);
      }
      if resources[reference.id].reference != reference {
        return Some(Rejected);
      }
      var size := |resources[reference.id].bytes|;
      TotalWithout(resources, reference.id);
      SmallerMap(resources, reference.id);
      resources := resources - {reference.id};
      totalBytes := SaturatingSub(totalBytes, size);
      return None;
    }
  }
}
