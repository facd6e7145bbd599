/** Deterministic activation planning over one resolved composition. */
module Activation {
  import opened Identifiers
  import opened Composition
  import opened DependencyGraph

  datatype PlanError =
    | DuplicateInstance(instance: Id)
    | RequiredContractUnresolved(instance: Id, component: Id, contract: ContractKey, reason: Reason)
    | DependencyCycle(instances: seq<Id>)

  datatype PlanResult = Planned(order: seq<Id>) | Refused(error: PlanError)

  /** A provider instance and the consumer instance that must start after it. */
  type Dependency = (Id, Id)

  // ---------- the required graph ----------

  ghost function PairsOf(b: ContractBinding): (pairs: set<Dependency>)
    ensures forall pair :: pair in pairs <==>
      b.required && pair.1 == b.consumer.instanceId && exists q :: q in b.providers && q.instanceId == pair.0
  {
    if b.required then set q | q in b.providers :: (q.instanceId, b.consumer.instanceId) else {}
  }

  ghost function RequiredPairs(bindings: seq<ContractBinding>): (pairs: set<Dependency>)
    ensures forall pair :: pair in pairs <==> exists b :: b in bindings && pair in PairsOf(b)
  {
    if bindings == [] then {}
    else
      var last := bindings[|bindings| - 1];
      assert bindings == bindings[..|bindings| - 1] + [last];
      RequiredPairs(bindings[..|bindings| - 1]) + PairsOf(last)
  }

  /** Every ordered pair the batch must respect. */
  ghost function AllPairs(snapshot: Snapshot, extra: seq<Dependency>): set<Dependency> {
    RequiredPairs(snapshot.bindings) + Elements(extra)
  }

  ghost function EdgesOf(pairs: set<Dependency>, scheduled: seq<Id>): (edges: set<Edge>)
    ensures forall e :: e in edges <==> EdgeOf(pairs, scheduled, e)
  {
    set i, j | 0 <= i < |scheduled| && 0 <= j < |scheduled| && EdgeOf(pairs, scheduled, (i, j)) :: (i, j)
  }

  ghost predicate EdgeOf(pairs: set<Dependency>, scheduled: seq<Id>, e: Edge) {
    && e.0 < |scheduled| && e.1 < |scheduled| && scheduled[e.0] != scheduled[e.1]
    && (scheduled[e.0], scheduled[e.1]) in pairs
  }

  // ---------- what a plan result must say ----------

  ghost predicate FirstRepeatAt(scheduled: seq<Id>, j: nat) {
    j < |scheduled| && scheduled[j] in scheduled[..j] && Distinct(scheduled[..j])
  }

  predicate Blocks(u: Unresolved, scheduled: seq<Id>) {
    u.required && u.consumer.instanceId in scheduled
  }

  ghost predicate FirstBlockAt(unresolved: seq<Unresolved>, scheduled: seq<Id>, k: nat) {
    && k < |unresolved| && Blocks(unresolved[k], scheduled)
    && forall i | 0 <= i < k :: !Blocks(unresolved[i], scheduled)
  }

  ghost predicate NothingBlocks(unresolved: seq<Unresolved>, scheduled: seq<Id>) {
    forall i | 0 <= i < |unresolved| :: !Blocks(unresolved[i], scheduled)
  }

  function Named(scheduled: seq<Id>, indices: seq<nat>): (names: seq<Id>)
    requires forall i | 0 <= i < |indices| :: indices[i] < |scheduled|
    ensures |names| == |indices| && forall i | 0 <= i < |indices| :: names[i] == scheduled[indices[i]]
  {
    seq(|indices|, i requires 0 <= i < |indices| => scheduled[indices[i]])
  }

  ghost predicate IndicesOf(scheduled: seq<Id>, indices: seq<nat>, names: seq<Id>) {
    && |names| == |indices|
    && forall i | 0 <= i < |indices| :: indices[i] < |scheduled| && names[i] == scheduled[indices[i]]
  }

  /** The result `build_activation_plan` owes its caller. */
  ghost predicate Describes(snapshot: Snapshot, scheduled: seq<Id>, extra: seq<Dependency>, r: PlanResult) {
    var n, edges := |scheduled|, EdgesOf(AllPairs(snapshot, extra), scheduled);
    if !Distinct(scheduled) then
      exists j: nat :: FirstRepeatAt(scheduled, j) && r == Refused(DuplicateInstance(scheduled[j]))
    else if !NothingBlocks(snapshot.unresolved, scheduled) then
      exists k: nat :: FirstBlockAt(snapshot.unresolved, scheduled, k)
                  && var u := snapshot.unresolved[k];
                     r == Refused(RequiredContractUnresolved(u.consumer.instanceId, u.consumer.componentId, u.contract, u.reason))
    else match r
      case Planned(order) =>
        exists indices :: LeastTopological(n, edges, indices) && IndicesOf(scheduled, indices, order)
      case Refused(DependencyCycle(instances)) =>
        exists path :: Cycle(edges, path) && ReportedCycle(n, edges, path) && IndicesOf(scheduled, path, instances)
      case Refused(_) => false
  }

  // ---------- consequences ----------

  /** Each next instance is a required provider of the one before it, and the walk closes. */
  ghost predicate NamesCycle(pairs: set<Dependency>, instances: seq<Id>) {
    && |instances| >= 2 && instances[0] == instances[|instances| - 1]
    && forall i | 0 <= i < |instances| - 1 :: (instances[i + 1], instances[i]) in pairs
  }

  /** With no repeats and nothing unresolved, a plan is refused exactly when the required graph has a
      cycle; the refusal names one, from consumer to required provider and back to its start. */
  lemma RefusedExactlyOnCycles(snapshot: Snapshot, scheduled: seq<Id>, extra: seq<Dependency>, r: PlanResult)
    requires Describes(snapshot, scheduled, extra, r)
    requires Distinct(scheduled) && NothingBlocks(snapshot.unresolved, scheduled)
    ensures r.Refused? <==> exists path :: Cycle(EdgesOf(AllPairs(snapshot, extra), scheduled), path)
    ensures r.Refused? ==> r.error.DependencyCycle? && NamesCycle(AllPairs(snapshot, extra), r.error.instances)
  {
    hide ReportedCycle;
    var edges := EdgesOf(AllPairs(snapshot, extra), scheduled);
    match r {
      case Planned(order) =>
        var indices :| LeastTopological(|scheduled|, edges, indices) && IndicesOf(scheduled, indices, order);
        forall path ensures !Cycle(edges, path) {
          CycleForbidsOrder(|scheduled|, edges, indices, path);
        }
      case Refused(error) =>
        var path :| Cycle(edges, path) && ReportedCycle(|scheduled|, edges, path) && IndicesOf(scheduled, path, error.instances);
        forall i | 0 <= i < |path| - 1
          ensures (error.instances[i + 1], error.instances[i]) in AllPairs(snapshot, extra)
        {
          assert EdgeOf(AllPairs(snapshot, extra), scheduled, (path[i + 1], path[i]));
        }
    }
  }

  /** A plan lists the whole batch once and puts every required provider before its consumer. */
  lemma PlanRespectsDependencies(snapshot: Snapshot, scheduled: seq<Id>, extra: seq<Dependency>, order: seq<Id>)
    requires Describes(snapshot, scheduled, extra, Planned(order))
    ensures Distinct(order) && Elements(order) == Elements(scheduled) && |order| == |scheduled|
    ensures Distinct(scheduled) && NothingBlocks(snapshot.unresolved, scheduled)
    ensures forall i, j | 0 <= i < |order| && 0 <= j < |order| && order[i] != order[j]
              && (order[i], order[j]) in AllPairs(snapshot, extra) :: i < j
  {
    var n, edges := |scheduled|, EdgesOf(AllPairs(snapshot, extra), scheduled);
    var indices :| LeastTopological(n, edges, indices) && IndicesOf(scheduled, indices, order);
    hide LeastTopological, AllPairs;
    assert Topological(n, edges, indices) by { LeastIsTopological(n, edges, indices); }
    PermutationCovers(n, indices);
    forall x ensures x in order <==> x in scheduled {
      if x in scheduled {
        var v :| 0 <= v < n && scheduled[v] == x;
        assert v in indices;
        var k :| 0 <= k < n && indices[k] == v;
        assert order[k] == x;
      }
    }
    forall i, j | 0 <= i < |order| && 0 <= j < |order| && order[i] != order[j]
                  && (order[i], order[j]) in AllPairs(snapshot, extra)
      ensures i < j
    {
      assert EdgeOf(AllPairs(snapshot, extra), scheduled, (indices[i], indices[j]));
    }
  }

  lemma LeastIsTopological(n: nat, edges: set<Edge>, order: seq<nat>)
    requires LeastTopological(n, edges, order)
    ensures Topological(n, edges, order)
  {
  }

  /** The result of planning is determined, down to the cycle that a refusal names. */
  lemma PlanIsDetermined(snapshot: Snapshot, scheduled: seq<Id>, extra: seq<Dependency>, a: PlanResult, b: PlanResult)
    requires Describes(snapshot, scheduled, extra, a) && Describes(snapshot, scheduled, extra, b)
    ensures a == b
  {
    hide ReportedCycle, EdgesOf, AllPairs;
    var n, edges := |scheduled|, EdgesOf(AllPairs(snapshot, extra), scheduled);
    if !Distinct(scheduled) {
      var i: nat :| FirstRepeatAt(scheduled, i) && a == Refused(DuplicateInstance(scheduled[i]));
      var j: nat :| FirstRepeatAt(scheduled, j) && b == Refused(DuplicateInstance(scheduled[j]));
      FirstRepeatIsUnique(scheduled, i, j);
    } else if NothingBlocks(snapshot.unresolved, scheduled) {
      RefusedExactlyOnCycles(snapshot, scheduled, extra, a);
      RefusedExactlyOnCycles(snapshot, scheduled, extra, b);
      if a.Planned? {
        var s :| LeastTopological(n, edges, s) && IndicesOf(scheduled, s, a.order);
        var t :| LeastTopological(n, edges, t) && IndicesOf(scheduled, t, b.order);
        LeastIsUnique(n, edges, s, t);
        assert a.order == b.order;
      } else {
        var s :| Cycle(edges, s) && ReportedCycle(n, edges, s) && IndicesOf(scheduled, s, a.error.instances);
        var t :| Cycle(edges, t) && ReportedCycle(n, edges, t) && IndicesOf(scheduled, t, b.error.instances);
        ReportedCycleIsUnique(n, edges, s, t);
        assert a.error.instances == b.error.instances;
      }
    }
  }

  lemma FirstRepeatIsUnique(scheduled: seq<Id>, i: nat, j: nat)
    requires FirstRepeatAt(scheduled, i) && FirstRepeatAt(scheduled, j)
    ensures i == j
  {
    RepeatStays(scheduled, i);
    RepeatStays(scheduled, j);
  }

  lemma RepeatStays(scheduled: seq<Id>, i: nat)
    requires FirstRepeatAt(scheduled, i)
    ensures forall m | i < m <= |scheduled| :: !Distinct(scheduled[..m])
  {
    var k :| 0 <= k < i && scheduled[..i][k] == scheduled[i];
    forall m | i < m <= |scheduled| ensures !Distinct(scheduled[..m]) {
      assert scheduled[..m][k] == scheduled[..m][i];
    }
  }

  // ---------- the planner ----------

  /** Adjacency of the required graph, as the planner accumulates it. */
  datatype Adjacency = Adjacency(edges: set<Edge>, outgoing: seq<seq<nat>>, incoming: seq<seq<nat>>, indegrees: seq<nat>)

  ghost predicate Represents(n: nat, a: Adjacency) {
    && GraphOver(n, a.edges)
    && OutgoingLists(n, a.edges, a.outgoing)
    && |a.incoming| == n && (forall v | 0 <= v < n :: Lists(a.incoming[v], Providers(n, a.edges, v)))
    && CountsProviders(n, a.edges, a.indegrees)
  }

  function AddEdge(a: Adjacency, provider: nat, consumer: nat): Adjacency
    requires provider < |a.outgoing| && consumer < |a.incoming| && consumer < |a.indegrees|
  {
    if (provider, consumer) in a.edges then a
    else Adjacency(
      a.edges + {(provider, consumer)},
      a.outgoing[provider := a.outgoing[provider] + [consumer]],
      a.incoming[consumer := a.incoming[consumer] + [provider]],
      a.indegrees[consumer := a.indegrees[consumer] + 1])
  }

  lemma AddEdgeRepresents(n: nat, a: Adjacency, provider: nat, consumer: nat)
    requires Represents(n, a) && provider < n && consumer < n && provider != consumer
    ensures Represents(n, AddEdge(a, provider, consumer))
  {
    if (provider, consumer) !in a.edges {
      AddEdgeLists(n, a, provider, consumer);
      AddEdgeCounts(n, a, provider, consumer);
    }
  }

  lemma AddEdgeLists(n: nat, a: Adjacency, provider: nat, consumer: nat)
    requires Represents(n, a) && provider < n && consumer < n && (provider, consumer) !in a.edges
    ensures var b := AddEdge(a, provider, consumer);
      && OutgoingLists(n, b.edges, b.outgoing)
      && |b.incoming| == n && forall v | 0 <= v < n :: Lists(b.incoming[v], Providers(n, b.edges, v))
  {
    assert |a.outgoing| == |a.incoming| == |a.indegrees| == n;
    hide CountsProviders;
    var b := AddEdge(a, provider, consumer);
    forall u | 0 <= u < n ensures Lists(b.outgoing[u], Dependents(n, b.edges, u)) {
      assert Lists(a.outgoing[u], Dependents(n, a.edges, u));
      assert u == provider ==> consumer !in a.outgoing[u];
    }
    forall v | 0 <= v < n ensures Lists(b.incoming[v], Providers(n, b.edges, v)) {
      assert Lists(a.incoming[v], Providers(n, a.edges, v));
      assert v == consumer ==> provider !in a.incoming[v];
    }
  }

  lemma AddEdgeCounts(n: nat, a: Adjacency, provider: nat, consumer: nat)
    requires Represents(n, a) && provider < n && consumer < n && (provider, consumer) !in a.edges
    ensures CountsProviders(n, AddEdge(a, provider, consumer).edges, AddEdge(a, provider, consumer).indegrees)
  {
    assert |a.outgoing| == |a.incoming| == |a.indegrees| == n;
    hide Lists, OutgoingLists;
    var b := AddEdge(a, provider, consumer);
    forall v | 0 <= v < n ensures b.indegrees[v] == Pending(n, b.edges, {}, v) {
      var before, after := Providers(n, a.edges, v), Providers(n, b.edges, v);
      assert before - {} == before && after - {} == after;
      assert after == if v == consumer then before + {provider} else before;
      assert v == consumer ==> provider !in before;
    }
  }

  ghost predicate Indexed(scheduled: seq<Id>, indices: map<Id, nat>) {
    && (forall id :: id in indices <==> id in scheduled)
    && (forall i | 0 <= i < |scheduled| :: indices[scheduled[i]] == i)
  }

  /** The planner's invariant: the adjacency shows exactly the edges of the pairs added so far. */
  ghost predicate Accumulates(scheduled: seq<Id>, pairs: set<Dependency>, a: Adjacency) {
    Represents(|scheduled|, a) && a.edges == EdgesOf(pairs, scheduled)
  }

  method AddDependency(indices: map<Id, nat>, provider: Id, consumer: Id, a: Adjacency,
                       ghost scheduled: seq<Id>, ghost pairs: set<Dependency>)
    returns (b: Adjacency)
    requires Indexed(scheduled, indices) && Accumulates(scheduled, pairs, a)
    ensures Accumulates(scheduled, pairs + {(provider, consumer)}, b)
  {
    hide Represents, EdgesOf;
    if provider == consumer || consumer !in indices || provider !in indices {
      IrrelevantPair(scheduled, indices, pairs, provider, consumer);
      return a;
    }
    RelevantPair(scheduled, indices, pairs, provider, consumer, a);
    b := AddEdge(a, indices[provider], indices[consumer]);
  }

  lemma IrrelevantPair(scheduled: seq<Id>, indices: map<Id, nat>, pairs: set<Dependency>, provider: Id, consumer: Id)
    requires Indexed(scheduled, indices)
    requires provider == consumer || consumer !in indices || provider !in indices
    ensures EdgesOf(pairs + {(provider, consumer)}, scheduled) == EdgesOf(pairs, scheduled)
  {
    forall e ensures EdgeOf(pairs + {(provider, consumer)}, scheduled, e) <==> EdgeOf(pairs, scheduled, e) {
    }
  }

  lemma RelevantPair(scheduled: seq<Id>, indices: map<Id, nat>, pairs: set<Dependency>, provider: Id, consumer: Id, a: Adjacency)
    requires Indexed(scheduled, indices) && Accumulates(scheduled, pairs, a)
    requires provider != consumer && consumer in indices && provider in indices
    ensures indices[provider] < |a.outgoing| && indices[consumer] < |a.incoming| && indices[consumer] < |a.indegrees|
    ensures Accumulates(scheduled, pairs + {(provider, consumer)}, AddEdge(a, indices[provider], indices[consumer]))
  {
    var p, c := indices[provider], indices[consumer];
    assert scheduled[p] == provider && scheduled[c] == consumer;
    AddEdgeRepresents(|scheduled|, a, p, c);
    forall e ensures EdgeOf(pairs + {(provider, consumer)}, scheduled, e) <==> EdgeOf(pairs, scheduled, e) || e == (p, c) {
    }
    assert EdgesOf(pairs + {(provider, consumer)}, scheduled) == EdgesOf(pairs, scheduled) + {(p, c)};
  }

  method IndexInstances(scheduled: seq<Id>) returns (indices: map<Id, nat>, repeat: Option<Id>)
    ensures repeat.None? ==> Distinct(scheduled) && Indexed(scheduled, indices)
    ensures repeat.Some? ==> exists j: nat :: FirstRepeatAt(scheduled, j) && repeat.value == scheduled[j]
  {
    indices := map[];
    for i := 0 to |scheduled|
      invariant Distinct(scheduled[..i]) && Indexed(scheduled[..i], indices)
    {
      if scheduled[i] in indices {
        assert FirstRepeatAt(scheduled, i);
        return indices, Some(scheduled[i]);
      }
      indices := indices[scheduled[i] := i];
      assert scheduled[..i + 1] == scheduled[..i] + [scheduled[i]];
    }
    assert scheduled[..|scheduled|] == scheduled;
    return indices, None;
  }

  method FindBlocking(unresolved: seq<Unresolved>, scheduled: seq<Id>) returns (r: Option<Unresolved>)
    ensures r.None? ==> NothingBlocks(unresolved, scheduled)
    ensures r.Some? ==> exists k: nat :: FirstBlockAt(unresolved, scheduled, k) && r.value == unresolved[k]
  {
    for i := 0 to |unresolved|
      invariant forall j | 0 <= j < i :: !Blocks(unresolved[j], scheduled)
    {
      if Blocks(unresolved[i], scheduled) {
        assert FirstBlockAt(unresolved, scheduled, i);
        return Some(unresolved[i]);
      }
    }
    return None;
  }

  /** Adds every required binding and every extra dependency to an empty graph. */
  method BuildAdjacency(bindings: seq<ContractBinding>, scheduled: seq<Id>, indices: map<Id, nat>, extra: seq<Dependency>)
    returns (a: Adjacency)
    requires Indexed(scheduled, indices)
    ensures Accumulates(scheduled, RequiredPairs(bindings) + Elements(extra), a)
  {
    hide Accumulates, RequiredPairs, PairsOf;
    var n := |scheduled|;
    var none: seq<seq<nat>> := seq(n, _ => []);
    a := Adjacency({}, none, none, seq(n, _ => 0));
    EmptyAccumulates(scheduled, a);
    ghost var pairs: set<Dependency> := {};
    for i := 0 to |bindings|
      invariant pairs == RequiredPairs(bindings[..i])
      invariant Accumulates(scheduled, pairs, a)
    {
      var b := bindings[i];
      if b.required {
        ghost var before := pairs;
        for k := 0 to |b.providers|
          invariant pairs == before + SomePairs(b, k)
          invariant Accumulates(scheduled, pairs, a)
        {
          a := AddDependency(indices, b.providers[k].instanceId, b.consumer.instanceId, a, scheduled, pairs);
          pairs := pairs + {(b.providers[k].instanceId, b.consumer.instanceId)};
        }
        AllOfOneBinding(b);
      }
      OneMoreBinding(bindings, i);
    }
    assert bindings[..|bindings|] == bindings;
    assert RequiredPairs(bindings) + Elements(extra[..0]) == RequiredPairs(bindings);
    for i := 0 to |extra|
      invariant pairs == RequiredPairs(bindings) + Elements(extra[..i])
      invariant Accumulates(scheduled, pairs, a)
    {
      a := AddDependency(indices, extra[i].0, extra[i].1, a, scheduled, pairs);
      pairs := pairs + {(extra[i].0, extra[i].1)};
      assert extra[..i + 1] == extra[..i] + [extra[i]];
    }
    assert extra[..|extra|] == extra;
  }

  ghost function SomePairs(b: ContractBinding, k: nat): set<Dependency>
    requires k <= |b.providers|
  {
    if k == 0 then {}
    else SomePairs(b, k - 1) + {(b.providers[k - 1].instanceId, b.consumer.instanceId)}
  }

  lemma {:induction false} SomePairsContain(b: ContractBinding, k: nat, pair: Dependency)
    requires k <= |b.providers|
    ensures pair in SomePairs(b, k) <==>
      pair.1 == b.consumer.instanceId && exists i :: 0 <= i < k && b.providers[i].instanceId == pair.0
  {
    if k > 0 {
      SomePairsContain(b, k - 1, pair);
    }
  }

  lemma AllOfOneBinding(b: ContractBinding)
    requires b.required
    ensures SomePairs(b, |b.providers|) == PairsOf(b)
  {
    forall pair ensures pair in SomePairs(b, |b.providers|) <==> pair in PairsOf(b) {
      SomePairsContain(b, |b.providers|, pair);
      if q :| q in b.providers && q.instanceId == pair.0 {
        var i :| 0 <= i < |b.providers| && b.providers[i] == q;
      }
    }
  }

  lemma OneMoreBinding(bindings: seq<ContractBinding>, i: nat)
    requires i < |bindings|
    ensures RequiredPairs(bindings[..i + 1]) == RequiredPairs(bindings[..i]) + PairsOf(bindings[i])
    ensures !bindings[i].required ==> PairsOf(bindings[i]) == {}
  {
    var longer := bindings[..i + 1];
    assert longer[..|longer| - 1] == bindings[..i] && longer[|longer| - 1] == bindings[i];
  }

  lemma EmptyAccumulates(scheduled: seq<Id>, a: Adjacency)
    requires a.edges == {} && |a.outgoing| == |a.incoming| == |a.indegrees| == |scheduled|
    requires forall i | 0 <= i < |scheduled| :: a.outgoing[i] == [] && a.incoming[i] == [] && a.indegrees[i] == 0
    ensures Accumulates(scheduled, {}, a)
  {
    assert EdgesOf({}, scheduled) == {};
    forall v | 0 <= v < |scheduled| ensures Pending(|scheduled|, {}, {}, v) == 0 {
      assert Providers(|scheduled|, {}, v) - {} == {};
    }
  }

  /** `build_activation_plan`. */
  method BuildActivationPlan(snapshot: Snapshot, scheduled: seq<Id>, extra: seq<Dependency>)
    returns (r: PlanResult)
    ensures Describes(snapshot, scheduled, extra, r)
  {
    hide Describes, LeastTopological, Cycle, Walk, Lasso, AllWaiting, FirstRepeatAt, FirstBlockAt, NothingBlocks, Distinct,
      Indexed, Accumulates, EdgesOf, AllPairs, GraphOver, OutgoingLists, CountsProviders, Ordering, Stalled, Lists;
    var indices, repeat := IndexInstances(scheduled);
    if repeat.Some? {
      r := Refused(DuplicateInstance(repeat.value));
      DescribesRepeat(snapshot, scheduled, extra, r);
      return;
    }
    var blocking := FindBlocking(snapshot.unresolved, scheduled);
    if blocking.Some? {
      var u := blocking.value;
      r := Refused(RequiredContractUnresolved(u.consumer.instanceId, u.consumer.componentId, u.contract, u.reason));
      DescribesBlock(snapshot, scheduled, extra, u, r);
      return;
    }
    var a := BuildAdjacency(snapshot.bindings, scheduled, indices, extra);
    var n := |scheduled|;
    ghost var edges := EdgesOf(AllPairs(snapshot, extra), scheduled);
    AccumulatedGraph(snapshot, scheduled, extra, a);
    var indegrees := new nat[n](i requires 0 <= i < |a.indegrees| => a.indegrees[i]);
    assert indegrees[..] == a.indegrees;
    var order := OrderByReadiness(n, edges, a.outgoing, indegrees);
    if |order| != n {
      StallFollows(n, edges, order, a.incoming, indegrees[..]);
      LeftoverIsWaiting(n, edges, order, a.incoming, indegrees[..]);
      var cycle, lead := FindCycle(n, edges, a.incoming, indegrees);
      assert ReportedCycle(n, edges, cycle);
      CycleInRange(n, edges, cycle);
      r := Refused(DependencyCycle(Named(scheduled, cycle)));
      DescribesCycle(snapshot, scheduled, extra, cycle, r);
    } else {
      CompleteOrder(n, edges, order, indegrees[..]);
      r := Planned(Named(scheduled, order));
      DescribesPlan(snapshot, scheduled, extra, order, r);
    }
  }

  lemma DescribesRepeat(snapshot: Snapshot, scheduled: seq<Id>, extra: seq<Dependency>, r: PlanResult)
    requires r.Refused? && r.error.DuplicateInstance?
    requires exists j: nat :: FirstRepeatAt(scheduled, j) && r.error.instance == scheduled[j]
    ensures Describes(snapshot, scheduled, extra, r)
  {
    RepeatIsNotDistinct(scheduled);
  }

  lemma DescribesBlock(snapshot: Snapshot, scheduled: seq<Id>, extra: seq<Dependency>, u: Unresolved, r: PlanResult)
    requires Distinct(scheduled)
    requires exists k: nat :: FirstBlockAt(snapshot.unresolved, scheduled, k) && u == snapshot.unresolved[k]
    requires r == Refused(RequiredContractUnresolved(u.consumer.instanceId, u.consumer.componentId, u.contract, u.reason))
    ensures Describes(snapshot, scheduled, extra, r)
  {
    hide Distinct;
    BlockMeansBlocked(snapshot.unresolved, scheduled);
  }

  lemma DescribesCycle(snapshot: Snapshot, scheduled: seq<Id>, extra: seq<Dependency>, cycle: seq<nat>, r: PlanResult)
    requires Distinct(scheduled) && NothingBlocks(snapshot.unresolved, scheduled)
    requires Cycle(EdgesOf(AllPairs(snapshot, extra), scheduled), cycle)
    requires ReportedCycle(|scheduled|, EdgesOf(AllPairs(snapshot, extra), scheduled), cycle)
    requires forall i | 0 <= i < |cycle| :: cycle[i] < |scheduled|
    requires r == Refused(DependencyCycle(Named(scheduled, cycle)))
    ensures Describes(snapshot, scheduled, extra, r)
  {
    hide Cycle, ReportedCycle, Distinct, NothingBlocks, EdgesOf, AllPairs;
    assert IndicesOf(scheduled, cycle, r.error.instances);
  }

  lemma DescribesPlan(snapshot: Snapshot, scheduled: seq<Id>, extra: seq<Dependency>, order: seq<nat>, r: PlanResult)
    requires Distinct(scheduled) && NothingBlocks(snapshot.unresolved, scheduled)
    requires LeastTopological(|scheduled|, EdgesOf(AllPairs(snapshot, extra), scheduled), order)
    requires forall i | 0 <= i < |order| :: order[i] < |scheduled|
    requires r == Planned(Named(scheduled, order))
    ensures Describes(snapshot, scheduled, extra, r)
  {
    hide LeastTopological, Distinct, NothingBlocks, EdgesOf, AllPairs;
    assert IndicesOf(scheduled, order, r.order);
  }

  lemma RepeatIsNotDistinct(scheduled: seq<Id>)
    requires exists j: nat :: FirstRepeatAt(scheduled, j)
    ensures !Distinct(scheduled)
  {
    var j: nat :| FirstRepeatAt(scheduled, j);
    var i :| 0 <= i < j && scheduled[..j][i] == scheduled[j];
    assert scheduled[i] == scheduled[j];
  }

  lemma BlockMeansBlocked(unresolved: seq<Unresolved>, scheduled: seq<Id>)
    requires exists k: nat :: FirstBlockAt(unresolved, scheduled, k)
    ensures !NothingBlocks(unresolved, scheduled)
  {
  }

  lemma AccumulatedGraph(snapshot: Snapshot, scheduled: seq<Id>, extra: seq<Dependency>, a: Adjacency)
    requires Accumulates(scheduled, RequiredPairs(snapshot.bindings) + Elements(extra), a)
    ensures var n, edges := |scheduled|, EdgesOf(AllPairs(snapshot, extra), scheduled);
      && GraphOver(n, edges) && OutgoingLists(n, edges, a.outgoing) && CountsProviders(n, edges, a.indegrees)
      && |a.indegrees| == |a.incoming| == n
      && forall v | 0 <= v < n :: Lists(a.incoming[v], Providers(n, edges, v))
  {
  }

  lemma CycleInRange(n: nat, edges: set<Edge>, cycle: seq<nat>)
    requires GraphOver(n, edges) && Cycle(edges, cycle)
    ensures forall i | 0 <= i < |cycle| :: cycle[i] < n
  {
    forall i | 0 <= i < |cycle| ensures cycle[i] < n {
      assert i + 1 < |cycle| ==> (cycle[i + 1], cycle[i]) in edges;
      assert i > 0 ==> (cycle[i], cycle[i - 1]) in edges;
    }
  }

  lemma CompleteOrder(n: nat, edges: set<Edge>, order: seq<nat>, indegrees: seq<nat>)
    requires GraphOver(n, edges) && Ordering(n, edges, order, {}, indegrees) && |order| == n
    ensures LeastTopological(n, edges, order) && forall i | 0 <= i < n :: order[i] < n
  {
    FullEmissionIsLeast(n, edges, order);
  }

  /** A short order leaves every remaining position waiting for another remaining position. */
  lemma StallFollows(n: nat, edges: set<Edge>, order: seq<nat>, incoming: seq<seq<nat>>, residual: seq<nat>)
    requires GraphOver(n, edges) && Ordering(n, edges, order, {}, residual) && |order| != n
    requires |incoming| == n && forall v | 0 <= v < n :: Lists(incoming[v], Providers(n, edges, v))
    ensures Stalled(n, edges, incoming, residual)
  {
    RemainingAreBlocked(n, edges, order, residual);
    forall v | v in Blocked(residual) ensures Providers(n, edges, v) * Blocked(residual) != {} {
      RemainingWait(n, edges, order, residual, v);
    }
    var v := SomeRemaining(n, order) by {
      assert Emitted(n, edges, order);
    }
    assert v in Blocked(residual);
  }

  /** What a stalled ordering leaves behind is everything that waits. */
  lemma LeftoverIsWaiting(n: nat, edges: set<Edge>, order: seq<nat>, incoming: seq<seq<nat>>, residual: seq<nat>)
    requires Ordering(n, edges, order, {}, residual) && Stalled(n, edges, incoming, residual)
    ensures AllWaiting(n, edges, Blocked(residual))
  {
    hide Ordering, Stalled, Waiting, Emitted;
    StalledWait(n, edges, incoming, residual);
    RemainingAreBlocked(n, edges, order, residual);
    assert Emitted(n, edges, order) by { OrderingEmits(n, edges, order, residual); }
    forall t | Waiting(n, edges, t) ensures t <= Blocked(residual) {
      WaitingAreLeft(n, edges, order, t);
    }
  }

  lemma OrderingEmits(n: nat, edges: set<Edge>, order: seq<nat>, residual: seq<nat>)
    requires Ordering(n, edges, order, {}, residual)
    ensures Emitted(n, edges, order)
  {
  }

  lemma WaitingAreLeft(n: nat, edges: set<Edge>, order: seq<nat>, t: set<nat>)
    requires Emitted(n, edges, order) && Waiting(n, edges, t)
    ensures forall v | v in t :: v < n && v !in order
  {
    forall v | v in t ensures v !in order {
      if i :| 0 <= i < |order| && order[i] == v {
        OrderedAreNotWaiting(n, edges, order, t, i);
      }
    }
  }

  lemma RemainingAreBlocked(n: nat, edges: set<Edge>, order: seq<nat>, residual: seq<nat>)
    requires Ordering(n, edges, order, {}, residual)
    ensures |residual| == n && forall v: nat :: v in Blocked(residual) <==> v < n && v !in order
  {
    hide AheadOfAll, Emitted;
    forall v | 0 <= v < n ensures residual[v] > 0 <==> v !in order {
      if v in order {
        EmittedHasNothingPending(n, edges, order, v);
      }
    }
  }

  lemma RemainingWait(n: nat, edges: set<Edge>, order: seq<nat>, residual: seq<nat>, v: nat)
    requires Ordering(n, edges, order, {}, residual) && v in Blocked(residual)
    ensures Providers(n, edges, v) * Blocked(residual) != {}
  {
    hide AheadOfAll, Emitted;
    RemainingAreBlocked(n, edges, order, residual);
    assert |Providers(n, edges, v) - Elements(order)| > 0;
    var p: nat :| p in Providers(n, edges, v) - Elements(order);
    assert p in Providers(n, edges, v) * Blocked(residual);
  }

  lemma SomeRemaining(n: nat, order: seq<nat>) returns (v: nat)
    requires Distinct(order) && |order| != n && forall i | 0 <= i < |order| :: order[i] < n
    ensures v < n && v !in order
  {
    BoundedLength(n, order);
    DistinctSize(order);
    if Upto(n) <= Elements(order) {
      SubsetSize(Upto(n), Elements(order));
      assert false;
    }
    v :| v in Upto(n) && v !in Elements(order);
  }
}
