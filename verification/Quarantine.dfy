/** What a quarantine sweep stops, and in which order. */
module Quarantine {
  import opened Identifiers
  import opened DependencyGraph
  import opened RuntimeEffects
  import opened ExecutionTargets
  import opened Callbacks
  import opened EngineModel

  /** `y` is an active instance built on an execution target of `x`. */
  ghost predicate ActiveDependent(extensions: Extensions, x: Id, y: Id) {
    y in extensions && y != x && extensions[y].state.Active? && DependsOn(extensions[y], x)
  }

  ghost predicate ChainOf(extensions: Extensions, path: seq<Id>) {
    |path| > 0 && forall i | 0 <= i < |path| - 1 :: ActiveDependent(extensions, path[i], path[i + 1])
  }

  /** A chain of active execution-target dependents leads from `x` to `y`. */
  ghost predicate Reaches(extensions: Extensions, x: Id, y: Id) {
    exists path :: ChainOf(extensions, path) && path[0] == x && path[|path| - 1] == y
  }

  /** Among the visited instances, those registered no earlier than the root are not active any more. */
  ghost predicate Settled(m: Model, root: Id, visited: set<Id>) {
    && root in m.extensions && root in m.order
    && (root !in visited ==> !m.extensions[root].state.Stopped?)
    && forall x | x in visited && x in m.extensions && x in m.order && m.order[x] >= m.order[root] ::
         !m.extensions[x].state.Active?
  }

  /** A sweep from `root` that stopped the given instances in log order: all of them reachable, closed under
      active dependents, and never a provider before its dependent. */
  ghost predicate Swept(m: Model, root: Id, visited: set<Id>, stopped: set<Id>, log: seq<Id>) {
    && stopped <= m.extensions.Keys && stopped <= m.order.Keys && root in m.order && stopped !! visited
    && (forall x | x in stopped :: Reaches(m.extensions, root, x) && m.order[x] >= m.order[root]
                                && (x == root || m.extensions[x].state.Active?))
    && (forall x, y | x in stopped && ActiveDependent(m.extensions, x, y) :: y in stopped)
    && Elements(log) == stopped && Distinct(log) && DependentsFirst(m.extensions, log)
  }

  ghost predicate DependentsFirst(extensions: Extensions, log: seq<Id>) {
    forall i, j | 0 <= i < j < |log| :: log[j] in extensions ==> !DependsOn(extensions[log[j]], log[i])
  }

  lemma NothingSwept(m: Model, root: Id, visited: set<Id>)
    requires root in m.order
    ensures Swept(m, root, visited, {}, [])
  {
  }

  // ---------- chains ----------

  lemma OneStep(extensions: Extensions, x: Id, d: Id, y: Id)
    requires ActiveDependent(extensions, x, d) && Reaches(extensions, d, y)
    ensures Reaches(extensions, x, y)
  {
    var path :| ChainOf(extensions, path) && path[0] == d && path[|path| - 1] == y;
    var longer := [x] + path;
    forall i | 0 <= i < |longer| - 1 ensures ActiveDependent(extensions, longer[i], longer[i + 1]) {
      if i > 0 {
        assert longer[i] == path[i - 1] && longer[i + 1] == path[i];
      }
    }
    assert ChainOf(extensions, longer);
  }

  lemma ReachesItself(extensions: Extensions, x: Id)
    ensures Reaches(extensions, x, x)
  {
    assert ChainOf(extensions, [x]);
  }

  /** With fewer active instances there are fewer chains. */
  lemma FewerChains(extensions: Extensions, ids: set<Id>, x: Id, y: Id)
    requires Reaches(WithStates(extensions, ids, Stopped), x, y)
    ensures Reaches(extensions, x, y)
  {
    var fewer := WithStates(extensions, ids, Stopped);
    var path :| ChainOf(fewer, path) && path[0] == x && path[|path| - 1] == y;
    forall i | 0 <= i < |path| - 1 ensures ActiveDependent(extensions, path[i], path[i + 1]) {
      assert ActiveDependent(fewer, path[i], path[i + 1]);
      ActiveDependentsAfter(extensions, ids, path[i], path[i + 1]);
    }
    assert ChainOf(extensions, path);
  }

  lemma ActiveDependentsAfter(extensions: Extensions, ids: set<Id>, x: Id, y: Id)
    ensures ActiveDependent(WithStates(extensions, ids, Stopped), x, y) <==> ActiveDependent(extensions, x, y) && y !in ids
  {
    if y in extensions {
      assert WithStates(extensions, ids, Stopped)[y].dependencies == extensions[y].dependencies;
    }
  }

  // ---------- one recursive call ----------

  lemma DependentIsLater(m: Model, x: Id, d: Id)
    requires EdgesPointBack(m.extensions, m.order, m.nextOrder) && ActiveDependent(m.extensions, x, d)
    ensures x in m.order && d in m.order && m.order[x] < m.order[d]
  {
  }

  /** An active dependent of the root has not been visited. */
  lemma DependentIsUnvisited(m: Model, root: Id, visited: set<Id>, d: Id)
    requires EdgesPointBack(m.extensions, m.order, m.nextOrder) && Settled(m, root, visited) && ActiveDependent(m.extensions, root, d)
    ensures d !in visited && d != root
  {
    DependentIsLater(m, root, d);
  }

  lemma CallIsSettled(m: Model, root: Id, visited: set<Id>, stopped: set<Id>, d: Id)
    requires EdgesPointBack(m.extensions, m.order, m.nextOrder) && Settled(m, root, visited) && ActiveDependent(m.extensions, root, d)
    ensures Settled(StoppedAll(m, stopped), d, visited + {root} + stopped)
  {
    DependentIsLater(m, root, d);
    DependentIsUnvisited(m, root, visited, d);
    hide DependsOn;
    assert StoppedAll(m, stopped).order == m.order;
    assert StoppedAll(m, stopped).extensions == WithStates(m.extensions, stopped, Stopped);
  }

  lemma CallJoins(m: Model, root: Id, visited: set<Id>, stopped: set<Id>, log: seq<Id>, d: Id, more: set<Id>, moreLog: seq<Id>)
    requires EdgesPointBack(m.extensions, m.order, m.nextOrder) && ActiveDependent(m.extensions, root, d)
    requires Swept(m, root, visited + {root}, stopped, log)
    requires Swept(StoppedAll(m, stopped), d, visited + {root} + stopped, more, moreLog)
    ensures Swept(m, root, visited + {root}, stopped + more, log + moreLog)
  {
    hide Reaches, DependsOn, EdgesPointBack, DependentsFirst, ActiveDependent;
    var n := StoppedAll(m, stopped);
    DependentIsLater(m, root, d);
    forall x | x in more
      ensures Reaches(m.extensions, root, x) && m.order[x] >= m.order[root] && m.extensions[x].state.Active?
    {
      FewerChains(m.extensions, stopped, d, x);
      OneStep(m.extensions, root, d, x);
      DependentIsActive(m.extensions, root, d);
    }
    forall x, y | x in stopped + more && ActiveDependent(m.extensions, x, y) ensures y in stopped + more {
      ActiveDependentsAfter(m.extensions, stopped, x, y);
    }
    assert Elements(log + moreLog) == stopped + more by { ConcatElements(log, moreLog); }
    DistinctJoin(log, moreLog);
    LaterDoNotDepend(m, stopped, log, more, moreLog);
  }

  lemma DependentIsActive(extensions: Extensions, x: Id, d: Id)
    requires ActiveDependent(extensions, x, d)
    ensures d in extensions && extensions[d].state.Active?
  {
  }

  lemma ConcatElements<T>(a: seq<T>, b: seq<T>)
    ensures Elements(a + b) == Elements(a) + Elements(b)
  {
  }

  lemma DistinctJoin<T>(a: seq<T>, b: seq<T>)
    requires Distinct(a) && Distinct(b) && Elements(a) !! Elements(b)
    ensures Distinct(a + b)
  {
    assert forall i | 0 <= i < |a| :: a[i] in Elements(a);
    assert forall i | 0 <= i < |b| :: b[i] in Elements(b);
  }

  lemma LaterDoNotDepend(m: Model, stopped: set<Id>, log: seq<Id>, more: set<Id>, moreLog: seq<Id>)
    requires Elements(log) == stopped && Elements(moreLog) == more && stopped !! more
    requires forall x, y | x in stopped && ActiveDependent(m.extensions, x, y) :: y in stopped
    requires more <= m.extensions.Keys && forall y | y in more :: m.extensions[y].state.Active?
    requires DependentsFirst(m.extensions, log) && DependentsFirst(StoppedAll(m, stopped).extensions, moreLog)
    ensures DependentsFirst(m.extensions, log + moreLog)
  {
    hide DependsOn;
    var all := log + moreLog;
    forall i, j | 0 <= i < j < |all| && all[j] in m.extensions ensures !DependsOn(m.extensions[all[j]], all[i]) {
      if j >= |log| {
        assert all[j] == moreLog[j - |log|] && all[j] in Elements(moreLog);
        if i < |log| {
          assert all[i] == log[i] && all[i] in Elements(log);
          assert all[i] != all[j];
          assert ActiveDependent(m.extensions, all[i], all[j]) <==> DependsOn(m.extensions[all[j]], all[i]);
        } else {
          assert all[i] == moreLog[i - |log|];
          SameDependencies(m, stopped, all[j], all[i]);
        }
      }
    }
  }

  lemma SameDependencies(m: Model, stopped: set<Id>, x: Id, p: Id)
    requires x in m.extensions
    ensures x in StoppedAll(m, stopped).extensions
    ensures DependsOn(StoppedAll(m, stopped).extensions[x], p) == DependsOn(m.extensions[x], p)
  {
  }

  /** The root itself stops last. */
  lemma RootJoins(m: Model, root: Id, visited: set<Id>, stopped: set<Id>, log: seq<Id>)
    requires EdgesPointBack(m.extensions, m.order, m.nextOrder) && root in m.extensions && root !in visited
    requires Swept(m, root, visited + {root}, stopped, log)
    requires forall y | ActiveDependent(m.extensions, root, y) :: y in stopped
    ensures Swept(m, root, visited, stopped + {root}, log + [root])
  {
    hide Reaches, DependsOn, ActiveDependent;
    ReachesItself(m.extensions, root);
    ConcatElements(log, [root]);
    DistinctJoin(log, [root]);
    var all := log + [root];
    forall i, j | 0 <= i < j < |all| && all[j] in m.extensions ensures !DependsOn(m.extensions[all[j]], all[i]) {
      if j == |log| {
        assert log[i] in Elements(log);
      }
    }
  }

  /** A sweep with nothing visited before stops exactly what the root reaches. */
  lemma SweepIsReachable(m: Model, root: Id, stopped: set<Id>, log: seq<Id>)
    requires Swept(m, root, {}, stopped, log) && root in stopped
    ensures forall x :: x in stopped <==> Reaches(m.extensions, root, x)
  {
    forall x | Reaches(m.extensions, root, x) ensures x in stopped {
      var path :| ChainOf(m.extensions, path) && path[0] == root && path[|path| - 1] == x;
      ChainStaysIn(m, stopped, path);
    }
  }

  lemma {:induction false} ChainStaysIn(m: Model, stopped: set<Id>, path: seq<Id>)
    requires forall x, y | x in stopped && ActiveDependent(m.extensions, x, y) :: y in stopped
    requires ChainOf(m.extensions, path) && path[0] in stopped
    ensures path[|path| - 1] in stopped
  {
    hide ActiveDependent;
    if |path| > 1 {
      assert ActiveDependent(m.extensions, path[0], path[1]);
      forall i | 0 <= i < |path[1..]| - 1 ensures ActiveDependent(m.extensions, path[1..][i], path[1..][i + 1]) {
        assert ActiveDependent(m.extensions, path[i + 1], path[i + 2]);
      }
      ChainStaysIn(m, stopped, path[1..]);
    }
  }

  // ---------- the callbacks of a sweep ----------

  /** The stop callbacks of every swept instance ran, instance by instance in log order. */
  ghost predicate SweepRan(extensions: Extensions, log: seq<Id>, runs: seq<CallbackRun>)
    decreases |log|
  {
    if log == [] then runs == []
    else exists cut: nat :: SweepEndsAt(extensions, log, runs, cut)
  }

  ghost predicate SweepEndsAt(extensions: Extensions, log: seq<Id>, runs: seq<CallbackRun>, cut: nat)
    requires log != []
    decreases |log|, 0
  {
    var last := log[|log| - 1];
    && cut <= |runs| && SweepRan(extensions, log[..|log| - 1], runs[..cut])
    && last in extensions && AllStopped(last, extensions[last].components, runs[cut..])
  }

  ghost predicate SweepTraced(extensions: Extensions, log: seq<Id>, before: seq<CallbackRun>, after: seq<CallbackRun>) {
    before <= after && SweepRan(extensions, log, after[|before|..])
  }

  lemma NothingSweptRan(extensions: Extensions, ran: seq<CallbackRun>)
    ensures SweepTraced(extensions, [], ran, ran)
  {
  }

  lemma {:induction false} SweepsConcatenate(extensions: Extensions, log: seq<Id>, runs: seq<CallbackRun>, more: seq<Id>, further: seq<CallbackRun>)
    requires SweepRan(extensions, log, runs) && SweepRan(extensions, more, further)
    ensures SweepRan(extensions, log + more, runs + further)
    decreases |more|
  {
    if more == [] {
      assert log + more == log && runs + further == runs;
    } else {
      var cut: nat :| SweepEndsAt(extensions, more, further, cut);
      var front := more[..|more| - 1];
      SweepsConcatenate(extensions, log, runs, front, further[..cut]);
      var all := log + more;
      assert all[..|all| - 1] == log + front && all[|all| - 1] == more[|more| - 1];
      assert (runs + further)[..|runs| + cut] == runs + further[..cut] && (runs + further)[|runs| + cut..] == further[cut..];
      assert SweepEndsAt(extensions, all, runs + further, |runs| + cut);
    }
  }

  /** Which callbacks a sweep runs depends on the components alone. */
  lemma {:induction false} SweepOfSameComponents(m: Model, ids: set<Id>, log: seq<Id>, runs: seq<CallbackRun>)
    requires SweepRan(StoppedAll(m, ids).extensions, log, runs)
    ensures SweepRan(m.extensions, log, runs)
    decreases |log|
  {
    if log != [] {
      var cut: nat :| SweepEndsAt(StoppedAll(m, ids).extensions, log, runs, cut);
      SweepOfSameComponents(m, ids, log[..|log| - 1], runs[..cut]);
      assert SweepEndsAt(m.extensions, log, runs, cut);
    }
  }

  lemma SweepGoesOn(m: Model, ids: set<Id>, log: seq<Id>, more: seq<Id>, a: seq<CallbackRun>, b: seq<CallbackRun>, c: seq<CallbackRun>)
    requires SweepTraced(m.extensions, log, a, b) && SweepTraced(StoppedAll(m, ids).extensions, more, b, c)
    ensures SweepTraced(m.extensions, log + more, a, c)
  {
    hide SweepRan, StoppedAll;
    SweepOfSameComponents(m, ids, more, c[|b|..]);
    SweepsConcatenate(m.extensions, log, b[|a|..], more, c[|b|..]);
    assert c[|a|..] == b[|a|..] + c[|b|..];
  }

  lemma StopIsSwept(extensions: Extensions, id: Id, components: seq<Id>, ran: seq<CallbackRun>, after: seq<CallbackRun>)
    requires id in extensions && extensions[id].components == components && ran <= after && AllStopped(id, components, after[|ran|..])
    ensures SweepTraced(extensions, [id], ran, after)
  {
    hide AllStopped;
    var runs := after[|ran|..];
    assert [id][..0] == [] && runs[..0] == [] && runs[0..] == runs;
    assert SweepRan(extensions, [], []);
    assert SweepEndsAt(extensions, [id], runs, 0);
  }

  // ---------- a runtime pump ----------

  /** Since `m`, callbacks ran and some active instances were stopped, together with all their active dependents. */
  ghost predicate PolledTo(m: Model, stopped: set<Id>, n: Model) {
    && n == StoppedAll(m, stopped).(effects := n.effects, hosts := n.hosts)
    && (forall x | x in stopped :: x in m.extensions && m.extensions[x].state.Active?)
    && (forall x, y | x in stopped && ActiveDependent(m.extensions, x, y) :: y in stopped)
  }

  lemma ReachesFurther(extensions: Extensions, x: Id, y: Id, z: Id)
    requires Reaches(extensions, x, y) && ActiveDependent(extensions, y, z)
    ensures Reaches(extensions, x, z)
  {
    var path :| ChainOf(extensions, path) && path[0] == x && path[|path| - 1] == y;
    var longer := path + [z];
    forall i | 0 <= i < |longer| - 1 ensures ActiveDependent(extensions, longer[i], longer[i + 1]) {
      if i < |path| - 1 {
        assert longer[i] == path[i] && longer[i + 1] == path[i + 1];
      }
    }
    assert ChainOf(extensions, longer);
  }

  lemma ReachedIsActive(extensions: Extensions, x: Id, y: Id)
    requires Reaches(extensions, x, y) && x in extensions && extensions[x].state.Active?
    ensures y in extensions && extensions[y].state.Active?
  {
    hide DependsOn;
    var path :| ChainOf(extensions, path) && path[0] == x && path[|path| - 1] == y;
    if |path| > 1 {
      assert ActiveDependent(extensions, path[|path| - 2], path[|path| - 2 + 1]);
    }
  }

  lemma PollStops(m: Model, before: set<Id>, n: Model, id: Id, more: set<Id>, k: Model)
    requires PolledTo(m, before, n) && id in n.extensions && n.extensions[id].state.Active?
    requires k == StoppedAll(n, more) && forall x :: x in more <==> Reaches(n.extensions, id, x)
    ensures PolledTo(m, before + more, k)
  {
    hide Reaches, StoppedAll, ActiveDependent;
    StopsCompose(m, before, more);
    OverrideStops(StoppedAll(m, before), more, n.effects, n.hosts);
    StoppedShape(m, before);
    forall x | x in more ensures x in m.extensions && m.extensions[x].state.Active? {
      ReachedIsActive(n.extensions, id, x);
    }
    forall x, y | x in before + more && ActiveDependent(m.extensions, x, y) ensures y in before + more {
      ActiveDependentsAfter(m.extensions, before, x, y);
      if x in more && y !in before {
        ReachesFurther(n.extensions, id, x, y);
      }
    }
  }

  lemma StoppedShape(m: Model, ids: set<Id>)
    ensures StoppedAll(m, ids).extensions == WithStates(m.extensions, ids, Stopped)
  {
  }

  lemma OverrideStops(m: Model, ids: set<Id>, effects: Effects, hosts: Hosts)
    ensures StoppedAll(m.(effects := effects, hosts := hosts), ids)
         == StoppedAll(m, ids).(effects := EffectsOfOthers(effects, ids), hosts := HostsOfOthers(hosts, ids))
  {
  }

  /** How one component's turn went. */
  datatype Poll = Skipped | Polled(ok: bool)

  /** A component that failed in its turn was reached from, and so stopped, the instance. */
  ghost predicate StoppedBy(extensions: Extensions, components: seq<ComponentRef>, polls: seq<Poll>, x: Id) {
    exists j :: 0 <= j < |polls| && j < |components| && polls[j] == Polled(false) && Reaches(extensions, components[j].instanceId, x)
  }

  /** The components of active instances in principal order. */
  ghost predicate TurnsOf(extensions: Extensions, components: seq<ComponentRef>) {
    && SortedByKey(components, RefKey)
    && forall c :: c in components <==> ActiveComponent(extensions, c)
  }

  predicate ActiveComponent(extensions: Extensions, c: ComponentRef) {
    c.instanceId in extensions && extensions[c.instanceId].state.Active? && c.componentId in extensions[c.instanceId].components
  }

  /** The first turns: a component is skipped exactly when an earlier failure reached its instance, and stopped are
      exactly the instances that the failures reach. */
  ghost predicate Pumped(m: Model, components: seq<ComponentRef>, polls: seq<Poll>, stopped: set<Id>, n: Model) {
    && |polls| <= |components| && PolledTo(m, stopped, n)
    && (forall x :: x in stopped <==> StoppedBy(m.extensions, components, polls, x))
    && forall i | 0 <= i < |polls| :: polls[i].Skipped? <==> StoppedBy(m.extensions, components, polls[..i], components[i].instanceId)
  }

  /** A turn's callback, and after a failure the stop callbacks of what was quarantined, the component's instance among it. */
  ghost predicate TurnRan(extensions: Extensions, owner: ComponentRef, poll: Poll, runs: seq<CallbackRun>) {
    match poll
    case Skipped => runs == []
    case Polled(ok) =>
      && |runs| > 0 && runs[0] == CallbackRun(owner, Polling, ok)
      && if ok then |runs| == 1 else exists log :: owner.instanceId in log && SweepRan(extensions, log, runs[1..])
  }

  /** Turn by turn, the callbacks that a pump runs. */
  ghost predicate PumpRan(extensions: Extensions, components: seq<ComponentRef>, polls: seq<Poll>, runs: seq<CallbackRun>)
    decreases |polls|
  {
    if polls == [] then runs == []
    else exists cut: nat :: TurnsEndAt(extensions, components, polls, runs, cut)
  }

  ghost predicate TurnsEndAt(extensions: Extensions, components: seq<ComponentRef>, polls: seq<Poll>, runs: seq<CallbackRun>, cut: nat)
    requires polls != []
    decreases |polls|, 0
  {
    var last := |polls| - 1;
    && cut <= |runs| && last < |components| && PumpRan(extensions, components, polls[..last], runs[..cut])
    && TurnRan(extensions, components[last], polls[last], runs[cut..])
  }

  ghost predicate PumpTraced(extensions: Extensions, components: seq<ComponentRef>, polls: seq<Poll>, before: seq<CallbackRun>, after: seq<CallbackRun>) {
    before <= after && PumpRan(extensions, components, polls, after[|before|..])
  }

  lemma NothingPumpedRan(extensions: Extensions, components: seq<ComponentRef>, ran: seq<CallbackRun>)
    ensures PumpTraced(extensions, components, [], ran, ran)
  {
  }

  lemma TurnIsTraced(extensions: Extensions, components: seq<ComponentRef>, polls: seq<Poll>, poll: Poll,
                     a: seq<CallbackRun>, b: seq<CallbackRun>, c: seq<CallbackRun>)
    requires PumpTraced(extensions, components, polls, a, b) && |polls| < |components|
    requires b <= c && TurnRan(extensions, components[|polls|], poll, c[|b|..])
    ensures PumpTraced(extensions, components, polls + [poll], a, c)
  {
    hide PumpRan, TurnRan;
    var longer, runs := polls + [poll], c[|a|..];
    var cut := |b| - |a|;
    assert longer[..|polls|] == polls && longer[|polls|] == poll;
    assert runs[..cut] == b[|a|..] && runs[cut..] == c[|b|..];
    assert TurnsEndAt(extensions, components, longer, runs, cut);
    assert PumpRan(extensions, components, longer, runs) by { PumpEnds(extensions, components, longer, runs, cut); }
  }

  lemma PumpEnds(extensions: Extensions, components: seq<ComponentRef>, polls: seq<Poll>, runs: seq<CallbackRun>, cut: nat)
    requires polls != [] && TurnsEndAt(extensions, components, polls, runs, cut)
    ensures PumpRan(extensions, components, polls, runs)
  {
  }

  /** A failed turn: its callback and then the sweep. */
  lemma FailedTurnRan(m: Model, stopped: set<Id>, n: Model, owner: ComponentRef, log: seq<Id>, b: seq<CallbackRun>, c: seq<CallbackRun>)
    requires PolledTo(m, stopped, n) && owner.instanceId in log
    requires SweepTraced(n.extensions, log, b + [CallbackRun(owner, Polling, false)], c)
    ensures b <= c && TurnRan(m.extensions, owner, Polled(false), c[|b|..])
  {
    hide SweepRan;
    var run := CallbackRun(owner, Polling, false);
    var runs := c[|b|..];
    assert (b + [run])[|b|] == c[|b|] && runs[0] == run && runs[1..] == c[|b + [run]|..];
    assert n.extensions == StoppedAll(m, stopped).extensions;
    SweepOfSameComponents(m, stopped, log, runs[1..]);
  }

  lemma NothingPumped(m: Model, components: seq<ComponentRef>)
    ensures Pumped(m, components, [], {}, m)
  {
    StopNothing(m);
  }

  lemma TurnIsOver(extensions: Extensions, components: seq<ComponentRef>, polls: seq<Poll>, poll: Poll, x: Id)
    requires |polls| < |components|
    ensures StoppedBy(extensions, components, polls + [poll], x) <==>
      StoppedBy(extensions, components, polls, x)
      || (poll == Polled(false) && Reaches(extensions, components[|polls|].instanceId, x))
  {
    hide Reaches;
    var longer := polls + [poll];
    if StoppedBy(extensions, components, polls, x) {
      var j :| 0 <= j < |polls| && j < |components| && polls[j] == Polled(false) && Reaches(extensions, components[j].instanceId, x);
      assert longer[j] == polls[j];
    }
    if StoppedBy(extensions, components, longer, x) {
      var j :| 0 <= j < |longer| && j < |components| && longer[j] == Polled(false) && Reaches(extensions, components[j].instanceId, x);
      if j < |polls| {
        assert polls[j] == longer[j];
      }
    }
    assert longer[|polls|] == poll;
  }

  /** The turn of a component whose instance no longer is active, or of one whose callback succeeds. */
  lemma PumpGoesOn(m: Model, components: seq<ComponentRef>, polls: seq<Poll>, stopped: set<Id>, n: Model, effects: Effects, hosts: Hosts)
    requires Pumped(m, components, polls, stopped, n) && |polls| < |components| && ActiveComponent(m.extensions, components[|polls|])
    ensures var id := components[|polls|].instanceId;
      && id in n.extensions
      && Pumped(m, components, polls + [if n.extensions[id].state.Active? then Polled(true) else Skipped], stopped,
                n.(effects := effects, hosts := hosts))
  {
    hide StoppedBy, StoppedAll, ActiveDependent, PolledTo;
    var id := components[|polls|].instanceId;
    StillActive(m, stopped, n, id);
    var poll := if n.extensions[id].state.Active? then Polled(true) else Skipped;
    forall x ensures x in stopped <==> StoppedBy(m.extensions, components, polls + [poll], x) {
      TurnIsOver(m.extensions, components, polls, poll, x);
    }
    EarlierTurns(polls, poll);
    assert PolledTo(m, stopped, n.(effects := effects, hosts := hosts)) by { OnlyEffects(m, stopped, n, effects, hosts); }
  }

  /** The turn of a component whose callback fails. */
  lemma PumpFails(m: Model, components: seq<ComponentRef>, polls: seq<Poll>, stopped: set<Id>, n: Model, more: set<Id>, k: Model)
    requires Pumped(m, components, polls, stopped, n) && |polls| < |components| && ActiveComponent(m.extensions, components[|polls|])
    requires var id := components[|polls|].instanceId;
      && id in n.extensions && n.extensions[id].state.Active?
      && k == StoppedAll(n, more) && forall x :: x in more <==> Reaches(n.extensions, id, x)
    ensures Pumped(m, components, polls + [Polled(false)], stopped + more, k)
  {
    hide StoppedBy, StoppedAll, ActiveDependent, PolledTo, Reaches;
    var id := components[|polls|].instanceId;
    StillActive(m, stopped, n, id);
    PollStops(m, stopped, n, id, more, k);
    forall x ensures x in stopped + more <==> StoppedBy(m.extensions, components, polls + [Polled(false)], x) {
      TurnIsOver(m.extensions, components, polls, Polled(false), x);
      ReachSplits(m, stopped, n, id, x);
    }
    EarlierTurns(polls, Polled(false));
  }

  lemma EarlierTurns(polls: seq<Poll>, poll: Poll)
    ensures forall i | 0 <= i <= |polls| :: (polls + [poll])[..i] == polls[..i]
    ensures polls[..|polls|] == polls
  {
  }

  lemma OnlyEffects(m: Model, stopped: set<Id>, n: Model, effects: Effects, hosts: Hosts)
    requires PolledTo(m, stopped, n)
    ensures PolledTo(m, stopped, n.(effects := effects, hosts := hosts))
  {
    hide ActiveDependent, StoppedAll;
  }

  lemma StillActive(m: Model, stopped: set<Id>, n: Model, id: Id)
    requires PolledTo(m, stopped, n) && id in m.extensions && m.extensions[id].state.Active?
    ensures id in n.extensions && (n.extensions[id].state.Active? <==> id !in stopped)
  {
    hide ActiveDependent;
  }

  /** What an active instance reached at first it reaches still, unless it was stopped meanwhile. */
  lemma ReachSplits(m: Model, stopped: set<Id>, n: Model, id: Id, x: Id)
    requires PolledTo(m, stopped, n) && id !in stopped
    ensures x in stopped || Reaches(n.extensions, id, x) <==> x in stopped || Reaches(m.extensions, id, x)
  {
    hide ActiveDependent, Reaches;
    StoppedShape(m, stopped);
    if Reaches(n.extensions, id, x) {
      FewerChains(m.extensions, stopped, id, x);
    }
    if Reaches(m.extensions, id, x) {
      var path := SomeChain(m.extensions, id, x);
      ChainSplits(m, stopped, path);
    }
  }

  lemma SomeChain(extensions: Extensions, x: Id, y: Id) returns (path: seq<Id>)
    requires Reaches(extensions, x, y)
    ensures ChainOf(extensions, path) && path[0] == x && path[|path| - 1] == y
  {
    path :| ChainOf(extensions, path) && path[0] == x && path[|path| - 1] == y;
  }

  lemma {:induction false} ChainSplits(m: Model, stopped: set<Id>, path: seq<Id>)
    requires forall x, y | x in stopped && ActiveDependent(m.extensions, x, y) :: y in stopped
    requires ChainOf(m.extensions, path) && path[0] !in stopped
    ensures path[|path| - 1] in stopped || Reaches(WithStates(m.extensions, stopped, Stopped), path[0], path[|path| - 1])
    decreases |path|
  {
    hide ActiveDependent, Reaches;
    if |path| == 1 {
      ReachesItself(WithStates(m.extensions, stopped, Stopped), path[0]);
    } else {
      var rest := path[1..];
      assert ActiveDependent(m.extensions, path[0], path[1]);
      forall i | 0 <= i < |rest| - 1 ensures ActiveDependent(m.extensions, rest[i], rest[i + 1]) {
        assert ActiveDependent(m.extensions, path[i + 1], path[(i + 1) + 1]);
      }
      if rest[0] in stopped {
        ChainStaysIn(m, stopped, rest);
      } else {
        ChainSplits(m, stopped, rest);
        ActiveDependentsAfter(m.extensions, stopped, path[0], path[1]);
        if path[|path| - 1] !in stopped {
          OneStep(WithStates(m.extensions, stopped, Stopped), path[0], path[1], path[|path| - 1]);
        }
      }
    }
  }
}
