/** Ordering of a required-dependency graph, and extraction of a cycle when there is no order.

    Nodes are positions in the requested batch. An edge (p, c) says that position p must start
    before position c. */
module DependencyGraph {
  import opened Identifiers

  type Edge = (nat, nat)

  ghost predicate GraphOver(n: nat, edges: set<Edge>) {
    forall e | e in edges :: e.0 < n && e.1 < n && e.0 != e.1
  }

  ghost predicate Distinct<T>(s: seq<T>) {
    forall i, j | 0 <= i < j < |s| :: s[i] != s[j]
  }

  ghost predicate Permutes(n: nat, order: seq<nat>) {
    |order| == n && Distinct(order) && forall i | 0 <= i < n :: order[i] < n
  }

  /** `order` lists every position once, each after all the positions it depends on. */
  ghost predicate Topological(n: nat, edges: set<Edge>, order: seq<nat>) {
    && Permutes(n, order)
    && forall i, j | 0 <= i < n && 0 <= j < n && (order[i], order[j]) in edges :: i < j
  }

  /** `s` is lexicographically smaller than `t`, differing first at position `k`. */
  ghost predicate SmallerAt(s: seq<nat>, t: seq<nat>, k: nat) {
    k < |s| && k < |t| && s[..k] == t[..k] && s[k] < t[k]
  }

  ghost predicate Smaller(s: seq<nat>, t: seq<nat>) {
    exists k: nat :: SmallerAt(s, t, k)
  }

  /** The lexicographically least topological order by input position. */
  ghost predicate LeastTopological(n: nat, edges: set<Edge>, order: seq<nat>) {
    && Topological(n, edges, order)
    && forall other | Topological(n, edges, other) :: order == other || Smaller(order, other)
  }

  /** A closed walk from consumers to providers: each next position must start before the previous. */
  ghost predicate Cycle(edges: set<Edge>, path: seq<nat>) {
    && |path| >= 2
    && path[0] == path[|path| - 1]
    && forall i | 0 <= i < |path| - 1 :: (path[i + 1], path[i]) in edges
  }

  ghost function Providers(n: nat, edges: set<Edge>, v: nat): (s: set<nat>)
    ensures forall u: nat :: u in s <==> u < n && (u, v) in edges
  {
    set u | 0 <= u < n && (u, v) in edges
  }

  ghost function Dependents(n: nat, edges: set<Edge>, u: nat): (s: set<nat>)
    ensures forall v: nat :: v in s <==> v < n && (u, v) in edges
  {
    set v | 0 <= v < n && (u, v) in edges
  }

  ghost predicate Lists(listing: seq<nat>, s: set<nat>) {
    Distinct(listing) && forall u: nat :: u in listing <==> u in s
  }

  // ---------- facts about orders and cycles ----------

  ghost function PositionOf(order: seq<nat>, v: nat): (k: nat)
    requires v in order
    ensures k < |order| && order[k] == v
  {
    var k :| 0 <= k < |order| && order[k] == v; k
  }

  lemma {:induction false} PermutationCovers(n: nat, order: seq<nat>)
    requires Permutes(n, order)
    ensures forall v | 0 <= v < n :: v in order
  {
    DistinctSize(order);
    assert Elements(order) <= Upto(n);
    SubsetOfEqualSize(Elements(order), Upto(n));
    forall v | 0 <= v < n ensures v in order {
      assert v in Upto(n);
    }
  }

  ghost function Upto(n: nat): (s: set<nat>)
    ensures |s| == n && forall v: nat :: v in s <==> v < n
  {
    if n == 0 then {} else Upto(n - 1) + {n - 1}
  }

  lemma {:induction false} DistinctSize<T>(s: seq<T>)
    requires Distinct(s)
    ensures |Elements(s)| == |s|
  {
    if |s| > 0 {
      var front := s[..|s| - 1];
      DistinctSize(front);
      assert s == front + [s[|s| - 1]];
      assert (Elements(s)) == (Elements(front)) + {s[|s| - 1]};
      assert s[|s| - 1] !in front;
    }
  }

  lemma {:induction false} SubsetOfEqualSize<T>(a: set<T>, b: set<T>)
    requires a <= b && |a| >= |b|
    ensures a == b
  {
    if x :| x in b && x !in a {
      SubsetSize(a, b - {x});
    }
  }

  lemma {:induction false} SubsetSize<T>(a: set<T>, b: set<T>)
    requires a <= b
    ensures |a| <= |b|
  {
    if x :| x in a {
      SubsetSize(a - {x}, b - {x});
    }
  }

  /** A graph with a cycle has no topological order. */
  lemma CycleForbidsOrder(n: nat, edges: set<Edge>, order: seq<nat>, path: seq<nat>)
    requires GraphOver(n, edges) && Topological(n, edges, order)
    ensures !Cycle(edges, path)
  {
    if Cycle(edges, path) {
      PermutationCovers(n, order);
      forall i | 0 <= i < |path| ensures path[i] < n {
        assert i + 1 < |path| ==> (path[i + 1], path[i]) in edges;
        assert i > 0 ==> (path[i], path[i - 1]) in edges;
      }
      WalkDescends(n, edges, order, path, |path| - 1);
      assert false;
    }
  }

  lemma {:induction false} WalkDescends(n: nat, edges: set<Edge>, order: seq<nat>, path: seq<nat>, k: nat)
    requires Topological(n, edges, order) && 0 < k < |path|
    requires forall v | 0 <= v < n :: v in order
    requires forall i | 0 <= i < |path| :: path[i] < n
    requires forall i | 0 <= i < |path| - 1 :: (path[i + 1], path[i]) in edges
    ensures PositionOf(order, path[k]) < PositionOf(order, path[0])
  {
    assert (path[k], path[k - 1]) in edges;
    assert PositionOf(order, path[k]) < PositionOf(order, path[k - 1]);
    if k > 1 {
      WalkDescends(n, edges, order, path, k - 1);
    }
  }

  /** The least order is unique, so an input order that is already valid comes back unchanged. */
  lemma LeastIsUnique(n: nat, edges: set<Edge>, a: seq<nat>, b: seq<nat>)
    requires LeastTopological(n, edges, a) && LeastTopological(n, edges, b)
    ensures a == b
  {
    if Smaller(a, b) {
      SmallerIsAsymmetric(a, b);
    }
  }

  lemma SmallerIsAsymmetric(a: seq<nat>, b: seq<nat>)
    requires Smaller(a, b)
    ensures !Smaller(b, a)
  {
    var i: nat :| SmallerAt(a, b, i);
    AgreesBefore(a, b, i);
    forall j: nat | SmallerAt(b, a, j) ensures false {
      AgreesBefore(b, a, j);
    }
  }

  lemma AgreesBefore(s: seq<nat>, t: seq<nat>, k: nat)
    requires SmallerAt(s, t, k)
    ensures forall x | 0 <= x < k :: s[x] == t[x]
  {
    forall x | 0 <= x < k ensures s[x] == t[x] {
      assert s[..k][x] == t[..k][x];
    }
  }

  ghost function InputOrder(n: nat): seq<nat> {
    seq(n, i => i)
  }

  lemma {:induction false} InputOrderIsSmallest(n: nat, other: seq<nat>)
    requires Permutes(n, other)
    ensures InputOrder(n) == other || Smaller(InputOrder(n), other)
  {
    var id := InputOrder(n);
    if id != other {
      var k := 0;
      while k < n && other[k] == k
        invariant 0 <= k <= n
        invariant forall i | 0 <= i < k :: other[i] == i
      {
        k := k + 1;
      }
      assert k < n;
      assert id[..k] == other[..k];
      PermutationCovers(n, other);
      NoEarlierRepeat(other, k);
      assert SmallerAt(id, other, k);
    }
  }

  lemma NoEarlierRepeat(s: seq<nat>, k: nat)
    requires Distinct(s) && k < |s|
    requires forall i | 0 <= i < k :: s[i] == i
    ensures s[k] >= k
  {
    forall v | v in Upto(k) ensures v in s[..k] {
      assert s[..k][v] == v;
    }
    assert s[k] !in s[..k];
    assert s[k] !in Upto(k);
  }

  lemma ValidInputOrderIsKept(n: nat, edges: set<Edge>, order: seq<nat>)
    requires LeastTopological(n, edges, order)
    requires Topological(n, edges, InputOrder(n))
    ensures order == InputOrder(n)
  {
    forall other | Topological(n, edges, other)
      ensures InputOrder(n) == other || Smaller(InputOrder(n), other)
    {
      InputOrderIsSmallest(n, other);
    }
    LeastIsUnique(n, edges, order, InputOrder(n));
  }

  // ---------- Kahn's algorithm ----------

  /** What holds of the indices popped so far. */
  ghost predicate Emitted(n: nat, edges: set<Edge>, order: seq<nat>) {
    && Distinct(order)
    && (forall i | 0 <= i < |order| :: order[i] < n)
    && (forall i | 0 <= i < |order| :: Providers(n, edges, order[i]) <= Elements(order[..i]))
  }

  /** Every topological order either continues `order` or is larger. */
  ghost predicate AheadOfAll(n: nat, edges: set<Edge>, order: seq<nat>) {
    forall other | Topological(n, edges, other) :: order <= other || Smaller(order, other)
  }

  /** How many required providers of `v` are not yet emitted. */
  ghost function Pending(n: nat, edges: set<Edge>, done: set<nat>, v: nat): nat {
    |Providers(n, edges, v) - done|
  }

  lemma NothingEmitted(n: nat, edges: set<Edge>)
    ensures Emitted(n, edges, []) && AheadOfAll(n, edges, [])
  {
  }

  lemma EmitLeastReady(n: nat, edges: set<Edge>, order: seq<nat>, u: nat)
    requires GraphOver(n, edges) && Emitted(n, edges, order) && AheadOfAll(n, edges, order)
    requires u < n && u !in order && Providers(n, edges, u) <= Elements(order)
    requires forall w | 0 <= w < n && w !in order && Providers(n, edges, w) <= Elements(order) :: u <= w
    ensures Emitted(n, edges, order + [u]) && AheadOfAll(n, edges, order + [u])
  {
    var next := order + [u];
    forall i | 0 <= i < |next| ensures Providers(n, edges, next[i]) <= Elements(next[..i]) {
      assert next[..i] == order[..i];
      assert order[..|order|] == order;
    }
    forall other | Topological(n, edges, other) ensures next <= other || Smaller(next, other) {
      if order <= other {
        NextIsReady(n, edges, order, other);
        assert other[..|order|] == order;
        if other[|order|] != u {
          assert SmallerAt(next, other, |order|);
        }
      } else {
        var k: nat :| SmallerAt(order, other, k);
        assert next[..k] == order[..k];
        assert SmallerAt(next, other, k);
      }
    }
  }

  /** If a topological order continues `order`, its next element is ready. */
  lemma NextIsReady(n: nat, edges: set<Edge>, order: seq<nat>, other: seq<nat>)
    requires Topological(n, edges, other) && order <= other
    requires exists u: nat :: u < n && u !in order
    ensures |order| < n && other[|order|] !in order
    ensures Providers(n, edges, other[|order|]) <= Elements(order)
  {
    PermutationCovers(n, other);
    assert order == other[..|order|];
    var k := |order|;
    assert |order| == n ==> order == other;
    forall p | p in Providers(n, edges, other[k]) ensures p in order {
      assert p in other;
      var i :| 0 <= i < |other| && other[i] == p;
      assert i < k;
      assert order[i] == p;
    }
  }

  lemma Retire(n: nat, edges: set<Edge>, done: set<nat>, u: nat, v: nat)
    requires u < n && u !in done
    ensures Pending(n, edges, done, v)
         == Pending(n, edges, done + {u}, v) + if (u, v) in edges then 1 else 0
  {
    var before, after := Providers(n, edges, v) - done, Providers(n, edges, v) - (done + {u});
    if (u, v) in edges {
      assert u in before && after == before - {u};
    } else {
      assert before == after;
    }
  }

  method LeastOf(s: set<nat>) returns (least: nat)
    requires s != {}
    ensures least in s && forall x | x in s :: least <= x
  {
    least :| least in s;
    var rest := s - {least};
    while rest != {}
      invariant rest <= s && least in s
      invariant forall x | x in s && x !in rest :: least <= x
      decreases rest
    {
      var x :| x in rest;
      rest := rest - {x};
      if x < least { least := x; }
    }
  }

  /** Every dependent lost one pending provider, and those left with none became ready. */
  ghost predicate Released(dependents: seq<nat>, before: seq<nat>, after: seq<nat>, ready: set<nat>, next: set<nat>) {
    && |before| == |after|
    && (forall v | 0 <= v < |after| :: before[v] == after[v] + if v in dependents then 1 else 0)
    && (forall v: nat :: v in next <==> v in ready || (v in dependents && v < |after| && after[v] == 0))
  }

  method Release(dependents: seq<nat>, indegrees: array<nat>, ready: set<nat>) returns (next: set<nat>)
    requires Distinct(dependents)
    requires forall k | 0 <= k < |dependents| ::
               dependents[k] < indegrees.Length && indegrees[dependents[k]] > 0
    modifies indegrees
    ensures Released(dependents, old(indegrees[..]), indegrees[..], ready, next)
  {
    next := ready;
    for k := 0 to |dependents|
      invariant Released(dependents[..k], old(indegrees[..]), indegrees[..], ready, next)
    {
      var dependent := dependents[k];
      assert dependent !in dependents[..k];
      indegrees[dependent] := indegrees[dependent] - 1;
      if indegrees[dependent] == 0 {
        next := next + {dependent};
      }
      assert dependents[..k + 1] == dependents[..k] + [dependent];
    }
    assert dependents[..|dependents|] == dependents;
  }

  /** The invariant of the main loop. */
  ghost predicate Ordering(n: nat, edges: set<Edge>, order: seq<nat>, ready: set<nat>, indegrees: seq<nat>) {
    && Emitted(n, edges, order) && AheadOfAll(n, edges, order)
    && |indegrees| == n
    && (forall v | 0 <= v < n :: indegrees[v] == Pending(n, edges, Elements(order), v))
    && (forall v: nat :: v in ready <==> v < n && v !in order && indegrees[v] == 0)
  }

  ghost predicate OutgoingLists(n: nat, edges: set<Edge>, outgoing: seq<seq<nat>>) {
    |outgoing| == n && forall u | 0 <= u < n :: Lists(outgoing[u], Dependents(n, edges, u))
  }

  ghost predicate CountsProviders(n: nat, edges: set<Edge>, indegrees: seq<nat>) {
    |indegrees| == n && forall v | 0 <= v < n :: indegrees[v] == Pending(n, edges, {}, v)
  }

  /** The main loop of the planner: pop the least ready index, release its dependents. */
  method OrderByReadiness(n: nat, ghost edges: set<Edge>, outgoing: seq<seq<nat>>, indegrees: array<nat>)
    returns (order: seq<nat>)
    requires GraphOver(n, edges) && OutgoingLists(n, edges, outgoing)
    requires CountsProviders(n, edges, indegrees[..])
    modifies indegrees
    ensures Ordering(n, edges, order, {}, indegrees[..])
  {
    hide Ordering, OutgoingLists, CountsProviders, Released, GraphOver;
    assert indegrees.Length == n == |outgoing| by { Sizes(n, edges, outgoing, indegrees[..]); }
    order := [];
    var ready: set<nat> := set v | 0 <= v < n && indegrees[v] == 0;
    BeginOrdering(n, edges, indegrees[..], ready);
    while ready != {}
      invariant Ordering(n, edges, order, ready, indegrees[..])
      decreases n - |order|
    {
      var u := LeastOf(ready);
      PopLeast(n, edges, order, u, ready, outgoing, indegrees[..]);
      ghost var before := indegrees[..];
      var left := ready - {u};
      assert left + {u} == ready;
      ready := Release(outgoing[u], indegrees, left);
      ContinueOrdering(n, edges, order, u, left, outgoing, before, indegrees[..], ready);
      order := order + [u];
    }
  }

  lemma Sizes(n: nat, edges: set<Edge>, outgoing: seq<seq<nat>>, indegrees: seq<nat>)
    requires OutgoingLists(n, edges, outgoing) && CountsProviders(n, edges, indegrees)
    ensures |outgoing| == |indegrees| == n
  {
  }

  lemma BeginOrdering(n: nat, edges: set<Edge>, indegrees: seq<nat>, ready: set<nat>)
    requires CountsProviders(n, edges, indegrees)
    requires forall v: nat :: v in ready <==> v < |indegrees| && indegrees[v] == 0
    ensures Ordering(n, edges, [], ready, indegrees)
  {
    assert Elements<nat>([]) == {};
    NothingEmitted(n, edges);
  }

  lemma PopLeast(n: nat, edges: set<Edge>, order: seq<nat>, u: nat, ready: set<nat>,
                 outgoing: seq<seq<nat>>, indegrees: seq<nat>)
    requires GraphOver(n, edges) && OutgoingLists(n, edges, outgoing)
    requires Ordering(n, edges, order, ready, indegrees)
    requires u in ready && forall x | x in ready :: u <= x
    ensures u < n && Emitted(n, edges, order + [u]) && AheadOfAll(n, edges, order + [u])
    ensures |order| < n && |outgoing| == n == |indegrees| && Distinct(outgoing[u])
    ensures forall k | 0 <= k < |outgoing[u]| :: outgoing[u][k] < n && indegrees[outgoing[u][k]] > 0
  {
    hide AheadOfAll;
    var done := Elements(order);
    assert Providers(n, edges, u) - done == {};
    forall w | 0 <= w < n && w !in order && Providers(n, edges, w) <= done ensures u <= w {
      assert Providers(n, edges, w) - done == {};
      assert w in ready;
    }
    EmitLeastReady(n, edges, order, u);
    BoundedLength(n, order + [u]);
    forall k | 0 <= k < |outgoing[u]| ensures outgoing[u][k] < n && indegrees[outgoing[u][k]] > 0 {
      assert outgoing[u][k] in outgoing[u];
      Retire(n, edges, done, u, outgoing[u][k]);
    }
  }

  lemma ContinueOrdering(n: nat, edges: set<Edge>, order: seq<nat>, u: nat, left: set<nat>,
                         outgoing: seq<seq<nat>>, before: seq<nat>, after: seq<nat>, next: set<nat>)
    requires GraphOver(n, edges) && OutgoingLists(n, edges, outgoing)
    requires u !in left && u < n && Ordering(n, edges, order, left + {u}, before)
    requires Emitted(n, edges, order + [u]) && AheadOfAll(n, edges, order + [u])
    requires Released(outgoing[u], before, after, left, next)
    ensures Ordering(n, edges, order + [u], next, after)
  {
    hide AheadOfAll, Emitted;
    hide Ordering;
    assert Ordering(n, edges, order, left + {u}, before);
    CountsAfterRelease(n, edges, order, u, left, outgoing, before, after, next);
    ReadyAfterRelease(n, edges, order, u, left, outgoing, before, after, next);
    MakeOrdering(n, edges, order + [u], next, after);
  }

  lemma MakeOrdering(n: nat, edges: set<Edge>, order: seq<nat>, ready: set<nat>, indegrees: seq<nat>)
    requires Emitted(n, edges, order) && AheadOfAll(n, edges, order) && |indegrees| == n
    requires forall v | 0 <= v < n :: indegrees[v] == Pending(n, edges, Elements(order), v)
    requires forall v: nat :: v in ready <==> v < n && v !in order && indegrees[v] == 0
    ensures Ordering(n, edges, order, ready, indegrees)
  {
    hide Emitted, AheadOfAll;
  }

  lemma CountsAfterRelease(n: nat, edges: set<Edge>, order: seq<nat>, u: nat, left: set<nat>,
                           outgoing: seq<seq<nat>>, before: seq<nat>, after: seq<nat>, next: set<nat>)
    requires GraphOver(n, edges) && OutgoingLists(n, edges, outgoing)
    requires u !in left && u < n && Ordering(n, edges, order, left + {u}, before)
    requires Released(outgoing[u], before, after, left, next)
    ensures |after| == n
    ensures forall v | 0 <= v < n :: after[v] == Pending(n, edges, Elements(order + [u]), v)
  {
    hide AheadOfAll, Emitted;
    var done := Elements(order);
    assert u in left + {u};
    assert Elements(order + [u]) == done + {u};
    forall v | 0 <= v < n ensures after[v] == Pending(n, edges, done + {u}, v) {
      Retire(n, edges, done, u, v);
      assert v in outgoing[u] <==> (u, v) in edges;
    }
  }

  lemma ReadyAfterRelease(n: nat, edges: set<Edge>, order: seq<nat>, u: nat, left: set<nat>,
                          outgoing: seq<seq<nat>>, before: seq<nat>, after: seq<nat>, next: set<nat>)
    requires GraphOver(n, edges) && OutgoingLists(n, edges, outgoing)
    requires u !in left && u < n && Ordering(n, edges, order, left + {u}, before)
    requires Emitted(n, edges, order + [u])
    requires Released(outgoing[u], before, after, left, next)
    ensures forall v: nat :: v in next <==> v < n && v !in order + [u] && after[v] == 0
  {
    hide AheadOfAll, Pending;
    forall v: nat | v < n && v in outgoing[u] ensures v !in order + [u] {
      DependentsComeLater(n, edges, order, u, v);
    }
  }

  lemma DependentsComeLater(n: nat, edges: set<Edge>, order: seq<nat>, u: nat, v: nat)
    requires GraphOver(n, edges) && Emitted(n, edges, order + [u])
    requires u < n && (u, v) in edges
    ensures v !in order + [u]
  {
    var next := order + [u];
    forall i | 0 <= i < |next| ensures next[i] != v {
      assert next[|order|] == u;
      assert u !in next[..i];
      assert Providers(n, edges, next[i]) <= Elements(next[..i]);
      assert (u, next[i]) !in edges;
    }
  }

  lemma EmittedHasNothingPending(n: nat, edges: set<Edge>, order: seq<nat>, v: nat)
    requires Emitted(n, edges, order) && v in order
    ensures Pending(n, edges, Elements(order), v) == 0
  {
    var i :| 0 <= i < |order| && order[i] == v;
    assert Elements(order[..i]) <= Elements(order);
    assert Providers(n, edges, v) - Elements(order) == {};
  }

  lemma BoundedLength(n: nat, order: seq<nat>)
    requires Distinct(order) && forall i | 0 <= i < |order| :: order[i] < n
    ensures |order| <= n
  {
    DistinctSize(order);
    assert Elements(order) <= Upto(n);
    SubsetSize(Elements(order), Upto(n));
  }

  /** A full run of the loop produced the least topological order. */
  lemma FullEmissionIsLeast(n: nat, edges: set<Edge>, order: seq<nat>)
    requires GraphOver(n, edges) && Emitted(n, edges, order) && AheadOfAll(n, edges, order)
    requires |order| == n
    ensures LeastTopological(n, edges, order)
  {
    forall i, j | 0 <= i < n && 0 <= j < n && (order[i], order[j]) in edges ensures i < j {
      assert order[i] in Providers(n, edges, order[j]);
      assert order[i] in order[..j];
      var k :| 0 <= k < j && order[..j][k] == order[i];
      assert order[k] == order[i];
    }
    forall other | Topological(n, edges, other) ensures order == other || Smaller(order, other) {
      if order <= other {
        assert order == other;
      }
    }
  }

  // ---------- the cycle walk ----------

  /** `p` is the least required provider of `v` that is itself still blocked. */
  ghost predicate LeastBlocked(edges: set<Edge>, blocked: set<nat>, v: nat, p: nat) {
    && p in blocked && (p, v) in edges
    && forall q | q in blocked && (q, v) in edges :: p <= q
  }

  ghost predicate Walk(edges: set<Edge>, blocked: set<nat>, path: seq<nat>) {
    && (forall i | 0 <= i < |path| :: path[i] in blocked)
    && (forall i | 0 <= i < |path| - 1 :: LeastBlocked(edges, blocked, path[i], path[i + 1]))
  }

  datatype Choice = Nothing | Just(index: nat)

  method MinBlocked(candidates: seq<nat>, residual: array<nat>) returns (r: Choice)
    requires forall i | 0 <= i < |candidates| :: candidates[i] < residual.Length
    ensures r.Nothing? <==> forall i | 0 <= i < |candidates| :: residual[candidates[i]] == 0
    ensures r.Just? ==> r.index in candidates && r.index < residual.Length && residual[r.index] > 0
    ensures r.Just? ==> forall i | 0 <= i < |candidates| && residual[candidates[i]] > 0 :: r.index <= candidates[i]
  {
    r := Nothing;
    for i := 0 to |candidates|
      invariant r.Nothing? <==> forall j | 0 <= j < i :: residual[candidates[j]] == 0
      invariant r.Just? ==> r.index in candidates && r.index < residual.Length && residual[r.index] > 0
      invariant r.Just? ==> forall j | 0 <= j < i && residual[candidates[j]] > 0 :: r.index <= candidates[j]
    {
      if residual[candidates[i]] > 0 && (r.Nothing? || candidates[i] < r.index) {
        r := Just(candidates[i]);
      }
    }
  }

  method FirstBlocked(residual: array<nat>) returns (first: nat)
    requires exists v :: 0 <= v < residual.Length && residual[v] > 0
    ensures first < residual.Length && residual[first] > 0
    ensures forall v | 0 <= v < first :: residual[v] == 0
  {
    first := 0;
    while residual[first] == 0
      invariant first < residual.Length && forall v | 0 <= v < first :: residual[v] == 0
      decreases residual.Length - first
    {
      first := first + 1;
    }
  }

  ghost function Blocked(residual: seq<nat>): (s: set<nat>)
    ensures forall v: nat :: v in s <==> v < |residual| && residual[v] > 0
  {
    set v | 0 <= v < |residual| && residual[v] > 0
  }

  /** Every blocked position waits for a blocked provider: what a stalled ordering leaves behind. */
  ghost predicate Stalled(n: nat, edges: set<Edge>, incoming: seq<seq<nat>>, residual: seq<nat>) {
    && GraphOver(n, edges) && |incoming| == n == |residual|
    && (forall v | 0 <= v < n :: Lists(incoming[v], Providers(n, edges, v)))
    && Blocked(residual) != {}
    && (forall v | v in Blocked(residual) :: Providers(n, edges, v) * Blocked(residual) != {})
  }

  /** The positions wait for one another: each has a provider among them. */
  ghost predicate Waiting(n: nat, edges: set<Edge>, s: set<nat>) {
    s <= Upto(n) && forall v | v in s :: Providers(n, edges, v) * s != {}
  }

  /** All positions that can never be ordered. */
  ghost predicate AllWaiting(n: nat, edges: set<Edge>, s: set<nat>) {
    Waiting(n, edges, s) && forall t | Waiting(n, edges, t) :: t <= s
  }

  /** The walk from the first waiting position, always on to the least waiting provider, until a position repeats. */
  ghost predicate Lasso(edges: set<Edge>, blocked: set<nat>, lead: seq<nat>, cycle: seq<nat>) {
    && |cycle| >= 2 && cycle[0] == cycle[|cycle| - 1]
    && Walk(edges, blocked, lead + cycle) && Distinct(lead + cycle[..|cycle| - 1])
    && forall v | v in blocked :: (lead + cycle)[0] <= v
  }

  /** The cycle that the graph determines. */
  ghost predicate ReportedCycle(n: nat, edges: set<Edge>, cycle: seq<nat>) {
    exists blocked, lead :: AllWaiting(n, edges, blocked) && Lasso(edges, blocked, lead, cycle)
  }

  lemma ReportedCycleIsUnique(n: nat, edges: set<Edge>, c: seq<nat>, d: seq<nat>)
    requires ReportedCycle(n, edges, c) && ReportedCycle(n, edges, d)
    ensures c == d
  {
    hide Waiting, Lasso;
    var blocked, lead :| AllWaiting(n, edges, blocked) && Lasso(edges, blocked, lead, c);
    var same, other :| AllWaiting(n, edges, same) && Lasso(edges, same, other, d);
    assert blocked <= same && same <= blocked;
    assert same == blocked;
    LassoIsUnique(edges, blocked, lead, c, other, d);
  }

  lemma LassoIsUnique(edges: set<Edge>, blocked: set<nat>, lead: seq<nat>, c: seq<nat>, other: seq<nat>, d: seq<nat>)
    requires Lasso(edges, blocked, lead, c) && Lasso(edges, blocked, other, d)
    ensures c == d
  {
    var a, b := lead + c, other + d;
    WalksAgree(edges, blocked, a, b);
    if |a| < |b| {
      LassoEnds(edges, blocked, lead, c, other, d);
    } else if |b| < |a| {
      LassoEnds(edges, blocked, other, d, lead, c);
    }
    assert a == b;
    SameKnot(edges, blocked, lead, c, other, d);
  }

  lemma WalksAgree(edges: set<Edge>, blocked: set<nat>, a: seq<nat>, b: seq<nat>)
    requires |a| > 0 && |b| > 0 && Walk(edges, blocked, a) && Walk(edges, blocked, b)
    requires (forall v | v in blocked :: a[0] <= v) && forall v | v in blocked :: b[0] <= v
    ensures forall i | 0 <= i < |a| && i < |b| :: a[i] == b[i]
  {
    assert a[0] in blocked && b[0] in blocked;
    var i := 1;
    while i < |a| && i < |b|
      invariant 1 <= i <= |a| && i <= |b| && forall j | 0 <= j < i :: a[j] == b[j]
    {
      assert LeastBlocked(edges, blocked, a[i - 1], a[i]) && LeastBlocked(edges, blocked, b[i - 1], b[i]);
      i := i + 1;
    }
  }

  /** A walk that repeats a position cannot go on as a lasso. */
  lemma LassoEnds(edges: set<Edge>, blocked: set<nat>, lead: seq<nat>, c: seq<nat>, other: seq<nat>, d: seq<nat>)
    requires Lasso(edges, blocked, lead, c) && Lasso(edges, blocked, other, d)
    requires forall i | 0 <= i < |lead + c| && i < |other + d| :: (lead + c)[i] == (other + d)[i]
    ensures |lead + c| >= |other + d|
  {
    hide Walk;
    var a, b, stem := lead + c, other + d, other + d[..|d| - 1];
    assert a[|lead|] == c[0] && a[|a| - 1] == c[|c| - 1];
    assert forall k | 0 <= k < |stem| :: stem[k] == b[k];
  }

  lemma SameKnot(edges: set<Edge>, blocked: set<nat>, lead: seq<nat>, c: seq<nat>, other: seq<nat>, d: seq<nat>)
    requires Lasso(edges, blocked, lead, c) && Lasso(edges, blocked, other, d) && lead + c == other + d
    ensures c == d
  {
    hide Walk;
    var a, stem := lead + c, lead + c[..|c| - 1];
    assert a[|lead|] == c[0] == a[|a| - 1];
    assert a[|other|] == d[0] == a[|a| - 1];
    assert stem[|lead|] == a[|lead|] && stem[|other|] == a[|other|];
    assert c == a[|lead|..] && d == a[|other|..];
  }

  /** Whatever has been ordered is not waiting. */
  lemma {:induction false} OrderedAreNotWaiting(n: nat, edges: set<Edge>, order: seq<nat>, t: set<nat>, i: nat)
    requires Emitted(n, edges, order) && Waiting(n, edges, t) && i < |order|
    ensures order[i] !in t
    decreases i
  {
    if order[i] in t {
      var p: nat :| p in Providers(n, edges, order[i]) * t;
      assert p in Elements(order[..i]);
      var j :| 0 <= j < i && order[..i][j] == p;
      OrderedAreNotWaiting(n, edges, order, t, j);
      assert false;
    }
  }

  lemma StalledWait(n: nat, edges: set<Edge>, incoming: seq<seq<nat>>, residual: seq<nat>)
    requires Stalled(n, edges, incoming, residual)
    ensures Waiting(n, edges, Blocked(residual))
  {
    hide Lists, GraphOver;
  }

  /** Walks from the first blocked position to its least blocked provider until a position repeats. */
  method FindCycle(n: nat, ghost edges: set<Edge>, incoming: seq<seq<nat>>, residual: array<nat>)
    returns (cycle: seq<nat>, ghost lead: seq<nat>)
    requires Stalled(n, edges, incoming, residual[..])
    ensures Cycle(edges, cycle)
    ensures Lasso(edges, Blocked(residual[..]), lead, cycle)
  {
    hide Stalled, Walk, Cycle, LeastBlocked, Indexes;
    ghost var blocked := Blocked(residual[..]);
    StalledSomewhere(n, edges, incoming, residual[..]);
    var current := FirstBlocked(residual);
    var path: seq<nat> := [];
    var positions: map<nat, nat> := map[];
    BeginWalk(n, edges, residual[..], current);
    while current !in positions
      invariant Tracing(n, edges, blocked, path, positions, current)
      invariant forall v | v in blocked :: (path + [current])[0] <= v
      decreases n - |path|
    {
      TraceNext(n, edges, incoming, residual[..], path, positions, current);
      positions := positions[current := |path|];
      path := path + [current];
      var next := MinBlocked(incoming[current], residual);
      if next.Nothing? {
        // The source lists every residual position here; the branch is never taken.
        assert false;
      }
      TraceTo(n, edges, incoming, residual[..], path, positions, next.index);
      current := next.index;
    }
    WalkClosed(n, edges, blocked, path, positions, current);
    cycle, lead := path[positions[current]..] + [current], path[..positions[current]];
  }

  /** The invariant of the walk. */
  ghost predicate Tracing(n: nat, edges: set<Edge>, blocked: set<nat>, path: seq<nat>, positions: map<nat, nat>, current: nat) {
    && current in blocked && blocked <= Upto(n)
    && Walk(edges, blocked, path + [current])
    && Distinct(path) && Indexes(positions, path)
  }

  lemma StalledSomewhere(n: nat, edges: set<Edge>, incoming: seq<seq<nat>>, residual: seq<nat>)
    requires Stalled(n, edges, incoming, residual)
    ensures |incoming| == n == |residual| && exists v :: 0 <= v < |residual| && residual[v] > 0
  {
    var v: nat :| v in Blocked(residual);
    assert residual[v] > 0;
  }

  lemma BeginWalk(n: nat, edges: set<Edge>, residual: seq<nat>, first: nat)
    requires |residual| == n && first < n && residual[first] > 0
    ensures Tracing(n, edges, Blocked(residual), [], map[], first)
  {
    assert [] + [first] == [first];
  }

  lemma TraceNext(n: nat, edges: set<Edge>, incoming: seq<seq<nat>>, residual: seq<nat>,
                  path: seq<nat>, positions: map<nat, nat>, current: nat)
    requires Stalled(n, edges, incoming, residual)
    requires Tracing(n, edges, Blocked(residual), path, positions, current) && current !in positions
    ensures current < n && |path| < n
    ensures forall i | 0 <= i < |incoming[current]| :: incoming[current][i] < n
    ensures exists i :: 0 <= i < |incoming[current]| && incoming[current][i] < n && residual[incoming[current][i]] > 0
    ensures Indexes(positions[current := |path|], path + [current]) && Distinct(path + [current])
    ensures Walk(edges, Blocked(residual), path + [current])
  {
    hide Walk;
    Reindex(positions, path, current);
    BoundedLength(n, path + [current]) by {
      WalkBounded(n, edges, residual, path + [current]);
    }
    forall i | 0 <= i < |incoming[current]| ensures incoming[current][i] < n {
      assert incoming[current][i] in incoming[current];
    }
    BlockedProviderListed(n, edges, Blocked(residual), incoming[current], current);
  }

  lemma WalkBounded(n: nat, edges: set<Edge>, residual: seq<nat>, path: seq<nat>)
    requires |residual| == n && Walk(edges, Blocked(residual), path)
    ensures forall i | 0 <= i < |path| :: path[i] < n
  {
  }

  lemma TraceTo(n: nat, edges: set<Edge>, incoming: seq<seq<nat>>, residual: seq<nat>,
                path: seq<nat>, positions: map<nat, nat>, next: nat)
    requires Stalled(n, edges, incoming, residual)
    requires |path| > 0 && Walk(edges, Blocked(residual), path) && Distinct(path) && Indexes(positions, path)
    requires path[|path| - 1] < n && next < n && residual[next] > 0
    requires var listing := incoming[path[|path| - 1]];
      next in listing
      && forall i | 0 <= i < |listing| && listing[i] < n && residual[listing[i]] > 0 :: next <= listing[i]
    ensures Tracing(n, edges, Blocked(residual), path, positions, next)
  {
    hide Walk, LeastBlocked;
    var last := path[|path| - 1];
    ChosenIsLeastBlocked(n, edges, residual, incoming[last], last, next);
    ExtendWalk(edges, Blocked(residual), path, next);
    assert Blocked(residual) <= Upto(n);
  }

  lemma WalkClosed(n: nat, edges: set<Edge>, blocked: set<nat>, path: seq<nat>, positions: map<nat, nat>, current: nat)
    requires Tracing(n, edges, blocked, path, positions, current) && current in positions
    ensures positions[current] <= |path|
    ensures Cycle(edges, path[positions[current]..] + [current])
    ensures (forall v | v in blocked :: (path + [current])[0] <= v) ==>
      Lasso(edges, blocked, path[..positions[current]], path[positions[current]..] + [current])
  {
    var whole, lead, cycle := path + [current], path[..positions[current]], path[positions[current]..] + [current];
    assert cycle == whole[positions[current]..];
    WalkEndingWhereItStartsIsCycle(edges, blocked, whole, positions[current]);
    assert lead + cycle == whole;
    assert lead + cycle[..|cycle| - 1] == path;
  }

  ghost predicate Indexes(positions: map<nat, nat>, path: seq<nat>) {
    && (forall v: nat :: v in positions <==> v in path)
    && (forall v | v in positions :: positions[v] < |path| && path[positions[v]] == v)
  }

  lemma Reindex(positions: map<nat, nat>, path: seq<nat>, v: nat)
    requires Indexes(positions, path) && v !in positions && Distinct(path)
    ensures Indexes(positions[v := |path|], path + [v]) && Distinct(path + [v])
  {
  }

  lemma ChosenIsLeastBlocked(n: nat, edges: set<Edge>, residual: seq<nat>, listing: seq<nat>, v: nat, p: nat)
    requires Lists(listing, Providers(n, edges, v)) && |residual| == n
    requires p in listing && p < n && residual[p] > 0
    requires forall i | 0 <= i < |listing| && listing[i] < n && residual[listing[i]] > 0 :: p <= listing[i]
    ensures LeastBlocked(edges, Blocked(residual), v, p)
  {
    forall q | q in Blocked(residual) && (q, v) in edges ensures p <= q {
      assert q in listing;
    }
  }


  lemma ExtendWalk(edges: set<Edge>, blocked: set<nat>, path: seq<nat>, next: nat)
    requires |path| > 0 && Walk(edges, blocked, path)
    requires LeastBlocked(edges, blocked, path[|path| - 1], next)
    ensures Walk(edges, blocked, path + [next])
  {
    var longer := path + [next];
    forall i | 0 <= i < |longer| - 1 ensures LeastBlocked(edges, blocked, longer[i], longer[i + 1]) {
      if i < |path| - 1 {
        assert longer[i] == path[i] && longer[i + 1] == path[i + 1];
      }
    }
  }

  lemma BlockedProviderListed(n: nat, edges: set<Edge>, blocked: set<nat>, listing: seq<nat>, v: nat)
    requires Lists(listing, Providers(n, edges, v))
    requires Providers(n, edges, v) * blocked != {}
    ensures exists i :: 0 <= i < |listing| && listing[i] in blocked
  {
    var p: nat :| p in Providers(n, edges, v) * blocked;
    assert p in listing;
  }

  lemma WalkEndingWhereItStartsIsCycle(edges: set<Edge>, blocked: set<nat>, whole: seq<nat>, start: nat)
    requires Walk(edges, blocked, whole) && start < |whole| - 1
    requires whole[start] == whole[|whole| - 1]
    ensures Walk(edges, blocked, whole[start..]) && Cycle(edges, whole[start..])
  {
    var tail := whole[start..];
    forall i | 0 <= i < |tail| - 1 ensures LeastBlocked(edges, blocked, tail[i], tail[i + 1]) {
      assert tail[i] == whole[start + i] && tail[i + 1] == whole[start + i + 1];
    }
  }
}
