/** Component-scoped secret read grants and the revision that numbers their changes. */
module SecretPolicy {
  import opened Identifiers
  import opened SecretPatterns

  type Grants = map<ComponentRef, seq<Pattern>>

  const U64_SIZE: nat := 0x1_0000_0000_0000_0000

  /** `fetch_add` and `wrapping_add` on a 64-bit counter. */
  function NextRevision(revision: nat): nat {
    (revision + 1) % U64_SIZE
  }

  predicate HasReadGrant(grants: Grants, owner: ComponentRef, required: Pattern) {
    owner in grants && AnyAllows(grants[owner], required)
  }

  predicate MayRead(grants: Grants, owner: ComponentRef, path: string) {
    owner in grants && AnyMatches(grants[owner], path)
  }

  function Granted(grants: Grants, owner: ComponentRef, pattern: Pattern): Grants {
    var held := if owner in grants then grants[owner] else [];
    if pattern in held then grants else grants[owner := held + [pattern]]
  }

  function Revoked(grants: Grants, owner: ComponentRef): Grants {
    grants - {owner}
  }

  ghost predicate ValidGrants(grants: Grants) {
    forall owner | owner in grants ::
      grants[owner] != [] && forall i | 0 <= i < |grants[owner]| :: Valid(grants[owner][i])
  }

  class SecretManager {
    var readGrants: Grants
    var policyRevision: nat

    constructor ()
      ensures readGrants == map[] && policyRevision == 0
    {
      readGrants := map[];
      policyRevision := 0;
    }

    /** Grants one component a pattern; the revision moves exactly when the policy does. */
    method GrantRead(owner: ComponentRef, pattern: Pattern)
      modifies this
      ensures readGrants == Granted(old(readGrants), owner, pattern)
      ensures policyRevision == if readGrants == old(readGrants) then old(policyRevision)
                                else NextRevision(old(policyRevision))
    {
      var held := if owner in readGrants then readGrants[owner] else [];
      if pattern !in held {
        assert owner in readGrants ==> readGrants[owner] != held + [pattern];
        readGrants := readGrants[owner := held + [pattern]];
        policyRevision := NextRevision(policyRevision);
      }
    }

    method RevokeComponent(owner: ComponentRef)
      modifies this
      ensures readGrants == Revoked(old(readGrants), owner)
      ensures policyRevision == if readGrants == old(readGrants) then old(policyRevision)
                                else NextRevision(old(policyRevision))
    {
      if owner in readGrants {
        readGrants := readGrants - {owner};
        policyRevision := NextRevision(policyRevision);
      } else {
        assert readGrants == readGrants - {owner};
      }
    }
  }

  /** A component satisfies a grant requirement exactly when it can read every secret path that the
      requirement names. */
  lemma GrantMeansReadable(grants: Grants, owner: ComponentRef, required: Pattern)
    requires ValidGrants(grants) && Valid(required)
    ensures HasReadGrant(grants, owner, required)
       <==> forall path | ValidPath(path) && Matches(required, path) :: MayRead(grants, owner, path)
  {
    if owner in grants {
      RequirementMetIffAllReadable(grants[owner], required);
      forall path | ValidPath(path) && Matches(required, path)
        ensures MayRead(grants, owner, path) <==> AnyMatches(grants[owner], path)
      {
      }
    } else {
      RequirementMetIffAllReadable([], required);
      assert !AnyAllows([], required);
      var path :| ValidPath(path) && Matches(required, path) && !AnyMatches([], path);
      assert !MayRead(grants, owner, path);
    }
  }
}
