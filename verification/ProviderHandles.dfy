/** Opaque provider handles: a table that forgets its bindings on every change but never reuses a value. */
module ProviderHandles {
  import opened Identifiers
  import opened SecretPolicy
  import opened ServiceTables

  datatype HandleKey = HandleKey(caller: ComponentRef, contract: ContractKey, provider: ComponentRef, allowInactive: bool)

  datatype HandleTable = HandleTable(next: nat, policyRevision: nat,
                                     byHandle: map<nat, HandleKey>, byKey: map<HandleKey, nat>)

  /** The two maps are inverse to each other and only hold values issued so far. */
  ghost predicate Consistent(h: HandleTable) {
    && h.next < U64_SIZE
    && (forall n | n in h.byHandle :: 0 < n <= h.next && h.byHandle[n] in h.byKey && h.byKey[h.byHandle[n]] == n)
    && (forall k | k in h.byKey :: h.byKey[k] in h.byHandle && h.byHandle[h.byKey[k]] == k)
  }

  function Forget(h: HandleTable): HandleTable {
    h.(byHandle := map[], byKey := map[])
  }

  function SyncPolicy(h: HandleTable, revision: nat): HandleTable {
    if h.policyRevision == revision then h else Forget(h).(policyRevision := revision)
  }

  function Issue(h: HandleTable, key: HandleKey): (HandleTable, Option<nat>) {
    if key in h.byKey then (h, Some(h.byKey[key]))
    else if h.next + 1 >= U64_SIZE then (h, None)
    else
      var n := h.next + 1;
      (h.(next := n, byHandle := h.byHandle[n := key], byKey := h.byKey[key := n]), Some(n))
  }

  function KeyFor(key: RouteKey, provider: ComponentRef): HandleKey {
    HandleKey(key.caller, key.contract, provider, key.allowInactive)
  }

  /** Issues a handle per provider, stopping at the first failure. */
  function IssueAll(h: HandleTable, key: RouteKey, providers: seq<ComponentRef>): (HandleTable, Option<seq<nat>>) {
    if providers == [] then (h, Some([]))
    else
      var (before, earlier) := IssueAll(h, key, providers[..|providers| - 1]);
      if earlier.None? then (before, None)
      else
        var (after, handle) := Issue(before, KeyFor(key, providers[|providers| - 1]));
        if handle.None? then (after, None) else (after, Some(earlier.value + [handle.value]))
  }

  /** `later` may have issued more values than `earlier`, and still knows everything `earlier` knew. */
  ghost predicate Extends(later: HandleTable, earlier: HandleTable) {
    && later.next >= earlier.next && later.policyRevision == earlier.policyRevision
    && (forall n | n in earlier.byHandle :: n in later.byHandle && later.byHandle[n] == earlier.byHandle[n])
    && (forall n | n in later.byHandle && n !in earlier.byHandle :: n > earlier.next)
  }

  lemma IssueKeepsConsistent(h: HandleTable, key: HandleKey)
    requires Consistent(h)
    ensures var (g, handle) := Issue(h, key);
      && Consistent(g) && Extends(g, h)
      && (handle.Some? ==> handle.value in g.byHandle && g.byHandle[handle.value] == key)
      && (handle.None? <==> key !in h.byKey && h.next == U64_SIZE - 1)
      && forall n | n in g.byHandle && n !in h.byHandle :: g.byHandle[n] == key
  {
  }

  ghost predicate NamesEach(h: HandleTable, key: RouteKey, providers: seq<ComponentRef>, handles: seq<nat>) {
    && |handles| == |providers|
    && forall i | 0 <= i < |providers| :: handles[i] in h.byHandle && h.byHandle[handles[i]] == KeyFor(key, providers[i])
  }

  /** Every issued handle names its own provider, in order, and earlier handles keep their meaning. */
  lemma {:induction false} IssueAllNamesProviders(h: HandleTable, key: RouteKey, providers: seq<ComponentRef>)
    requires Consistent(h)
    ensures var (g, handles) := IssueAll(h, key, providers);
      && Consistent(g) && Extends(g, h)
      && (forall n | n in g.byHandle && n !in h.byHandle :: exists p :: p in providers && g.byHandle[n] == KeyFor(key, p))
      && (handles.Some? ==> NamesEach(g, key, providers, handles.value))
  {
    if providers != [] {
      var front, last := providers[..|providers| - 1], providers[|providers| - 1];
      assert providers == front + [last];
      IssueAllNamesProviders(h, key, front);
      var (before, earlier) := IssueAll(h, key, front);
      if earlier.Some? {
        IssueKeepsConsistent(before, KeyFor(key, last));
      }
    }
  }

  lemma ForgettingKeepsConsistent(h: HandleTable, revision: nat)
    requires Consistent(h)
    ensures Consistent(Forget(h)) && Consistent(SyncPolicy(h, revision))
    ensures SyncPolicy(h, revision).policyRevision == revision
  {
  }
}
