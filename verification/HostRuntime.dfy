/** `activate_composition` and its rollback. */
module HostRuntime {
  import opened Identifiers
  import opened Lists
  import opened Composition
  import opened DependencyGraph
  import opened Activation
  import opened Scopes
  import opened Planning
  import opened Planner
  import opened RuntimeEffects
  import opened Callbacks
  import opened EngineModel
  import opened EngineSteps
  import opened Engine
  import opened BootstrapModel
  import opened ArtifactLoader
  import opened ProfileRecords
  import opened Bootstrap

  // ---------- what a run promises ----------

  /** Every activation is registered and started exactly once. */
  ghost predicate Complete(activations: seq<ActivationRecord>, l: Ledger) {
    && |l.registered| == |activations| && Distinct(l.registered)
    && (forall id :: id in l.registered <==> exists a :: a in activations && a.instanceId == id)
    && Distinct(l.started) && Elements(l.started) == Elements(l.registered)
  }

  /** A stall is a fixed point: no pending artifact has all its required targets, and no bootstrap-eligible
      instance can be planned or pulls in another; a batch error is reported whenever one is blocked. */
  ghost predicate GenuineStall(store: Store, m: Model, activations: seq<ActivationRecord>, l: Ledger, stall: Stall) {
    && (exists pending :: pending != [] && DeferredFor(store, pending, stall.deferred, m.hosts)
          && (forall a | a in pending :: a in activations)
          && forall a | a in activations :: a in pending || a.instanceId in l.registered)
    && AllStuck(m, l, activations, stall.blocked)
    && (stall.batchError.Some? <==> exists i :: 0 <= i < |activations| && Eligible(l, activations[i].instanceId))
  }

  /** The final batch of everything registered and not started cannot be planned. */
  ghost predicate RefusedBatch(at: Model, l: Ledger, reason: PlanError) {
    exists remaining :: IsRemaining(l, remaining) && Known(ViewOf(at), remaining) && IsPlan(ViewOf(at), remaining, PlanResult.Refused(reason))
  }

  ghost predicate IsRemaining(l: Ledger, remaining: seq<Id>) {
    forall id :: id in remaining <==> id in l.registered && id !in l.started
  }

  /** What makes a run fail, in the engine `at` its end with the ledger it then had and the callbacks that had run: one
      activation that cannot be loaded or is approved too much, a start callback that failed, a final batch without a
      plan, or a genuine stall. Nothing else does. */
  ghost predicate Cause(store: Store, profile: Records, at: Model, activations: seq<ActivationRecord>, l: Ledger, ran: seq<CallbackRun>, e: HostError) {
    match e
    case ArtifactUnavailable(_) => LoadCausedBySome(store, profile, at, activations, e)
    case LoadFailed(_) => LoadCausedBySome(store, profile, at, activations, e)
    case EngineFailed(error) =>
      || LoadCausedBySome(store, profile, at, activations, e)
      || FailedStart(at, l, error, ran)
      || (error.PlanRefused? && (forall a | a in activations :: a.instanceId in l.registered) && RefusedBatch(at, l, error.reason))
    case BootstrapStalled(stall) => GenuineStall(store, at, activations, l, stall)
    case _ => false
  }

  ghost predicate LoadCausedBySome(store: Store, profile: Records, at: Model, activations: seq<ActivationRecord>, e: HostError) {
    exists a :: a in activations && LoadCause(store, profile, a, at, e)
  }

  // ---------- the outer loop ----------

  /** Bookkeeping of the outer loop. */
  ghost predicate Balanced(activations: seq<ActivationRecord>, pending: seq<ActivationRecord>, l: Ledger) {
    && |pending| + |l.registered| == |activations|
    && (forall a | a in activations :: a in pending || a.instanceId in l.registered)
    && (forall a | a in pending :: a in activations)
    && (forall id | id in l.registered :: exists a :: a in activations && a.instanceId == id)
  }

  /** Every activation's instance was built from its artifact, in its scope, with exactly the approved permissions. */
  ghost predicate AllFaithful(store: Store, profile: Records, m: Model, activations: seq<ActivationRecord>) {
    forall a | a in activations :: FromArtifact(store, a, m.extensions) && ApprovedFor(profile, a, m.permissions)
  }

  method Run(engine: ExtensionEngine, store: Store, profile: Records, activations: seq<ActivationRecord>, ghost m0: Model)
    returns (error: Option<HostError>, l: Ledger)
    requires engine.Valid() && engine.Owned() && ValidStore(store) && Tracked(m0, engine.Abs(), Ledger([], [], {}))
    modifies engine`extensions, engine`contributions, engine`permissions, engine`order, engine`nextOrder, engine.effects, engine.targets, engine.services
    ensures engine.Valid() && engine.Owned() && Tracked(m0, engine.Abs(), l)
    ensures error.None? ==> Complete(activations, l) && AllFaithful(store, profile, engine.Abs(), activations)
    ensures error.Some? && error.value.BootstrapStalled? ==> GenuineStall(store, engine.Abs(), activations, l, error.value.stall)
    ensures error.Some? ==> RunFailure(error.value) && Cause(store, profile, engine.Abs(), activations, l, engine.effects.ran, error.value)
  {
    hide ExtensionEngine.Valid, ExtensionEngine.Owned, ExtensionEngine.Abs, Tracked, ValidStore, Balanced, RoundDone, AllStuck, GenuineStall, Faithful,
         LoadCause, FailedStart, RefusedBatch, Cause, AllFaithful, KeepsDeclared;
    error, l := None, Ledger([], [], {});
    var pending := activations;
    ghost var loaded: seq<ActivationRecord> := [];
    AllPending(activations);
    NothingLoaded(store, profile, engine.Abs());
    while pending != []
      invariant engine.Valid() && engine.Owned() && Tracked(m0, engine.Abs(), l)
      invariant error.None? && Balanced(activations, pending, l)
      invariant Faithful(store, profile, engine.Abs(), l.registered, loaded)
      invariant multiset(pending) + multiset(loaded) == multiset(activations)
      decreases |pending|, |activations| - |l.started|
    {
      ghost var before := l;
      ghost var m := engine.Abs();
      var failed, next, deferred;
      failed, next, deferred, l, loaded := LoadRound(engine, store, profile, pending, l, m0, loaded);
      if failed.Some? {
        LoadIsCause(store, profile, engine.Abs(), activations, pending, before, l, engine.effects.ran, failed.value);
        return failed, l;
      }
      RoundBalances(store, activations, pending, next, deferred, before, l, engine.Abs().hosts);
      var progress := |next| < |pending|;
      pending := next;
      if pending != [] {
        var round := l;
        ghost var unstarted := engine.Abs();
        var refused, blocked;
        refused, blocked, l := StartBootstrap(engine, activations, l, m0);
        if refused.Some? {
          StartIsCause(store, profile, engine.Abs(), activations, l, engine.effects.ran, refused.value);
          return Some(EngineFailed(refused.value)), l;
        }
        StartBalances(activations, pending, round, l);
        StartedFewer(m0, engine.Abs(), activations, pending, l);
        FaithfulStays(store, profile, unstarted, engine.Abs(), l.registered, loaded);
        if !progress && |l.started| == |round.started| {
          error := ReportStall(engine, store, activations, pending, deferred, blocked, l, m0);
          StallIsCause(store, profile, engine.Abs(), activations, l, engine.effects.ran, error.value);
          return;
        }
      }
    }
    ghost var waiting := engine.Abs();
    var failure;
    AllRegistered(activations, l);
    failure, l := FinalStarts(engine, activations, l, m0);
    if failure.Some? {
      FinalIsCause(store, profile, engine.Abs(), activations, l, engine.effects.ran, failure.value);
      return Some(EngineFailed(failure.value)), l;
    }
    FaithfulStays(store, profile, waiting, engine.Abs(), l.registered, loaded);
    EveryActivationLoaded(store, profile, engine.Abs(), activations, l.registered, loaded);
  }

  /** How a run that got past the profile's own checks can fail. */
  predicate RunFailure(e: HostError) {
    e.ArtifactUnavailable? || e.LoadFailed? || e.EngineFailed? || e.BootstrapStalled?
  }

  lemma LoadIsCause(store: Store, profile: Records, at: Model, activations: seq<ActivationRecord>, pending: seq<ActivationRecord>,
                    before: Ledger, l: Ledger, ran: seq<CallbackRun>, e: HostError)
    requires Balanced(activations, pending, before) && exists a :: a in pending && LoadCause(store, profile, a, at, e)
    ensures Cause(store, profile, at, activations, l, ran, e) && RunFailure(e) && !e.BootstrapStalled?
  {
    hide RefusedFor, RefusedApproval, FailedStart, RefusedBatch, GenuineStall;
    var a :| a in pending && LoadCause(store, profile, a, at, e);
    assert a in activations;
  }

  lemma StartIsCause(store: Store, profile: Records, at: Model, activations: seq<ActivationRecord>, l: Ledger, ran: seq<CallbackRun>, e: EngineError)
    requires FailedStart(at, l, e, ran)
    ensures Cause(store, profile, at, activations, l, ran, EngineFailed(e))
  {
    hide FailedStart, RefusedBatch, LoadCause;
  }

  lemma StallIsCause(store: Store, profile: Records, at: Model, activations: seq<ActivationRecord>, l: Ledger, ran: seq<CallbackRun>, e: HostError)
    requires e.BootstrapStalled? && GenuineStall(store, at, activations, l, e.stall)
    ensures Cause(store, profile, at, activations, l, ran, e)
  {
    hide GenuineStall;
  }

  lemma FinalIsCause(store: Store, profile: Records, at: Model, activations: seq<ActivationRecord>, l: Ledger, ran: seq<CallbackRun>, e: EngineError)
    requires forall id :: id in l.registered <==> exists a :: a in activations && a.instanceId == id
    requires if e.PlanRefused? then RefusedBatch(at, l, e.reason) else FailedStart(at, l, e, ran)
    ensures Cause(store, profile, at, activations, l, ran, EngineFailed(e))
  {
    hide FailedStart, RefusedBatch, LoadCause;
  }

  lemma NothingLoaded(store: Store, profile: Records, m: Model)
    ensures Faithful(store, profile, m, [], [])
  {
  }

  lemma EveryActivationLoaded(store: Store, profile: Records, m: Model, activations: seq<ActivationRecord>,
                              registered: seq<Id>, loaded: seq<ActivationRecord>)
    requires Faithful(store, profile, m, registered, loaded) && multiset(loaded) == multiset(activations)
    ensures AllFaithful(store, profile, m, activations)
  {
    hide FromArtifact, ApprovedFor;
    forall a | a in activations ensures a in loaded {
      assert a in multiset(activations) && a in multiset(loaded);
    }
  }

  lemma AllPending(activations: seq<ActivationRecord>)
    ensures Balanced(activations, activations, Ledger([], [], {}))
  {
  }

  lemma RoundBalances(store: Store, activations: seq<ActivationRecord>, pending: seq<ActivationRecord>, next: seq<ActivationRecord>,
                      deferred: seq<DeferredActivation>, l: Ledger, r: Ledger, hosts: ExecutionTargets.Hosts)
    requires Balanced(activations, pending, l) && RoundDone(store, pending, next, deferred, l, r, hosts)
    ensures Balanced(activations, next, r) && |next| <= |pending| && r.started == l.started
    ensures |next| == |pending| ==> r == l && next == pending
    ensures DeferredFor(store, next, deferred, hosts)
  {
    hide DeferredFor;
  }

  lemma StartBalances(activations: seq<ActivationRecord>, pending: seq<ActivationRecord>, l: Ledger, r: Ledger)
    requires Balanced(activations, pending, l) && r.registered == l.registered
    ensures Balanced(activations, pending, r)
  {
  }

  lemma StartedFewer(m0: Model, m: Model, activations: seq<ActivationRecord>, pending: seq<ActivationRecord>, l: Ledger)
    requires Tracked(m0, m, l) && Balanced(activations, pending, l)
    ensures |l.started| <= |activations|
  {
    hide Tracked;
    LedgerIsBounded(m0, m, l);
  }

  lemma AllRegistered(activations: seq<ActivationRecord>, l: Ledger)
    requires Balanced(activations, [], l)
    ensures |l.registered| == |activations|
    ensures forall id :: id in l.registered <==> exists a :: a in activations && a.instanceId == id
  {
  }

  // ---------- the stall report ----------

  method ReportStall(engine: ExtensionEngine, store: Store, activations: seq<ActivationRecord>, pending: seq<ActivationRecord>,
                     deferred: seq<DeferredActivation>, blocked: seq<BlockedActivation>, l: Ledger, ghost m0: Model)
    returns (error: Option<HostError>)
    requires engine.Valid() && Tracked(m0, engine.Abs(), l) && pending != [] && Balanced(activations, pending, l)
    requires DeferredFor(store, pending, deferred, engine.Abs().hosts) && AllStuck(engine.Abs(), l, activations, blocked)
    ensures error.Some? && error.value.BootstrapStalled? && GenuineStall(store, engine.Abs(), activations, l, error.value.stall)
  {
    hide ExtensionEngine.Valid, ExtensionEngine.Abs, Tracked, DeferredFor, AllStuck, Balanced, GenuineStall;
    var ids := EligibleIds(activations, l);
    var batchError := BatchError(engine, activations, blocked, ids, l, m0);
    StallIsGenuine(store, engine.Abs(), activations, pending, l, deferred, blocked, batchError, ids);
    return Some(BootstrapStalled(Stall(deferred, blocked, batchError)));
  }

  method EligibleIds(activations: seq<ActivationRecord>, l: Ledger) returns (ids: seq<Id>)
    ensures forall id | id in ids :: exists j :: 0 <= j < |activations| && activations[j].instanceId == id && Eligible(l, id)
    ensures ids != [] <==> exists i :: 0 <= i < |activations| && Eligible(l, activations[i].instanceId)
  {
    ids := [];
    for i := 0 to |activations|
      invariant forall id | id in ids :: exists j :: 0 <= j < i && activations[j].instanceId == id && Eligible(l, id)
      invariant ids != [] <==> exists j :: 0 <= j < i && Eligible(l, activations[j].instanceId)
    {
      if Eligible(l, activations[i].instanceId) {
        ids := ids + [activations[i].instanceId];
      }
    }
  }

  lemma StallIsGenuine(store: Store, m: Model, activations: seq<ActivationRecord>, pending: seq<ActivationRecord>, l: Ledger,
                       deferred: seq<DeferredActivation>, blocked: seq<BlockedActivation>, batchError: Option<PlanError>, ids: seq<Id>)
    requires pending != [] && Balanced(activations, pending, l)
    requires DeferredFor(store, pending, deferred, m.hosts) && AllStuck(m, l, activations, blocked)
    requires batchError.Some? <==> ids != []
    requires ids != [] <==> exists i :: 0 <= i < |activations| && Eligible(l, activations[i].instanceId)
    ensures GenuineStall(store, m, activations, l, Stall(deferred, blocked, batchError))
  {
    hide DeferredFor, AllStuck, Eligible;
  }

  /** `bootstrap_batch_error`: planning all the blocked instances together is refused too. */
  method BatchError(engine: ExtensionEngine, activations: seq<ActivationRecord>, blocked: seq<BlockedActivation>, ids: seq<Id>, l: Ledger, ghost m0: Model)
    returns (batchError: Option<PlanError>)
    requires engine.Valid() && Tracked(m0, engine.Abs(), l) && AllStuck(engine.Abs(), l, activations, blocked)
    requires forall id | id in ids :: exists j :: 0 <= j < |activations| && activations[j].instanceId == id && Eligible(l, id)
    ensures batchError.Some? <==> ids != []
  {
    hide ExtensionEngine.Valid, Tracked, IsPlan, Known, AllStuck;
    if ids == [] {
      return None;
    }
    StuckAreRefused(engine, activations, blocked, ids, l);
    var plan := engine.PlanActivation(ids);
    assert plan.Plan?;
    EngineIsSound(engine);
    MirrorDeclares(engine.Abs());
    SinglesRefusedThenBatchRefused(ViewOf(engine.Abs()), ids, plan.result);
    return Some(plan.result.error);
  }

  lemma StuckAreRefused(engine: ExtensionEngine, activations: seq<ActivationRecord>, blocked: seq<BlockedActivation>, ids: seq<Id>, l: Ledger)
    requires AllStuck(engine.Abs(), l, activations, blocked)
    requires forall id | id in ids :: exists j :: 0 <= j < |activations| && activations[j].instanceId == id && Eligible(l, id)
    ensures forall id | id in ids :: id in engine.extensions && RefusedAlone(ViewOf(engine.Abs()), id)
    ensures Known(ViewOf(engine.Abs()), ids)
  {
    hide IsPlan, Widens;
    forall id | id in ids ensures id in engine.extensions && RefusedAlone(ViewOf(engine.Abs()), id) {
      var j :| 0 <= j < |activations| && activations[j].instanceId == id && Eligible(l, id);
      assert StuckIn(engine.Abs(), l, activations[j], blocked);
      var b :| b in blocked && Stuck(engine.Abs(), l, activations[j], b);
      assert IsPlan(ViewOf(engine.Abs()), [id], PlanResult.Refused(b.reason));
    }
  }

  // ---------- the final batch ----------

  /** Plans everything that is left as one batch and starts it in plan order. Once the batch plan exists, no
      start is refused by planning any more; only a component's own start callback can still fail. */
  method FinalStarts(engine: ExtensionEngine, activations: seq<ActivationRecord>, l: Ledger, ghost m0: Model)
    returns (error: Option<EngineError>, r: Ledger)
    requires engine.Valid() && engine.Owned() && Tracked(m0, engine.Abs(), l)
    requires |l.registered| == |activations| && forall id :: id in l.registered <==> exists a :: a in activations && a.instanceId == id
    modifies engine`extensions, engine`contributions, engine.effects, engine.targets, engine.services
    ensures engine.Valid() && engine.Owned() && Tracked(m0, engine.Abs(), r)
    ensures r.registered == l.registered && KeepsDeclared(old(engine.Abs()), engine.Abs())
    ensures error.None? ==> Complete(activations, r)
    ensures error.Some? && error.value.PlanRefused? ==> r == l && engine.Abs() == old(engine.Abs())
    ensures error.Some? ==>
      if error.value.PlanRefused? then RefusedBatch(engine.Abs(), r, error.value.reason) else FailedStart(engine.Abs(), r, error.value, engine.effects.ran)
  {
    hide ExtensionEngine.Valid, ExtensionEngine.Owned, Tracked, IsPlan, Known, Complete, FailedStart, KeepsDeclared;
    KeepsItsOwn(engine.Abs());
    var remaining := Remaining(activations, l);
    RemainingIsKnown(m0, engine.Abs(), l, remaining);
    var plan := engine.PlanActivation(remaining);
    assert plan.Plan?;
    if plan.result.Refused? {
      return Some(PlanRefused(plan.result.error)), l;
    }
    error, r := StartInOrder(engine, activations, remaining, plan.result.order, l, m0);
  }

  method StartInOrder(engine: ExtensionEngine, ghost activations: seq<ActivationRecord>, ghost remaining: seq<Id>, order: seq<Id>, l: Ledger, ghost m0: Model)
    returns (error: Option<EngineError>, r: Ledger)
    requires engine.Valid() && engine.Owned() && Tracked(m0, engine.Abs(), l)
    requires |l.registered| == |activations| && forall id :: id in l.registered <==> exists a :: a in activations && a.instanceId == id
    requires forall id :: id in remaining <==> id in l.registered && id !in l.started
    requires PlannedBatch(ViewOf(engine.Abs()), remaining, order)
    modifies engine`extensions, engine`contributions, engine.effects, engine.targets, engine.services
    ensures engine.Valid() && engine.Owned() && Tracked(m0, engine.Abs(), r)
    ensures r.registered == l.registered && KeepsDeclared(old(engine.Abs()), engine.Abs())
    ensures error.None? ==> Complete(activations, r)
    ensures error.Some? ==> !error.value.PlanRefused? && FailedStart(engine.Abs(), r, error.value, engine.effects.ran)
  {
    hide ExtensionEngine.Valid, ExtensionEngine.Owned, ExtensionEngine.Abs, Tracked, StartTraced, FailedStart, PlannedBatch, Starts, Complete, Following, Coordinated, KeepsDeclared;
    r := l;
    ghost var initial := engine.Abs();
    KeepsItsOwn(initial);
    ghost var v := ViewOf(engine.Abs());
    EngineIsSound(engine);
    MirrorDeclares(engine.Abs());
    OrderFollows(engine.Abs(), l, remaining, order);
    for k := 0 to |order|
      invariant engine.Valid() && engine.Owned() && Tracked(m0, engine.Abs(), r)
      invariant Following(v, order, k, l, r, engine.Abs())
      invariant r.registered == l.registered && KeepsDeclared(initial, engine.Abs())
    {
      ghost var m := engine.Abs();
      NextFollows(v, order, k, l, r, m);
      ghost var ran := engine.effects.ran;
      ShownExtensions(engine);
      var result := engine.Start(order[k]);
      StartIsTracked(m0, m, r, order[k], result, engine.Abs());
      KeepsDeclaredOn(initial, m, engine.Abs());
      StartIsPlanned(v, remaining, order, k, l, r, m, result);
      if result.Err? {
        StartHasFailed(m, r, order[k], result.error, ran, engine.effects.ran);
        return Some(result.error), r;
      }
      StartFollows(v, order, k, l, r, m, engine.Abs());
      r := r.(started := r.started + [order[k]]);
    }
    AllStarted(m0, engine.Abs(), activations, v, order, l, r);
    return None, r;
  }

  ghost predicate PlannedBatch(v: View, remaining: seq<Id>, order: seq<Id>) {
    Known(v, remaining) && IsPlan(v, remaining, Planned(order))
  }

  method Remaining(activations: seq<ActivationRecord>, l: Ledger) returns (remaining: seq<Id>)
    ensures forall id :: id in remaining <==> id in l.registered && id !in l.started && exists a :: a in activations && a.instanceId == id
  {
    remaining := [];
    for i := 0 to |activations|
      invariant forall id :: id in remaining <==>
        id in l.registered && id !in l.started && exists a :: a in activations[..i] && a.instanceId == id
    {
      assert activations[..i + 1] == activations[..i] + [activations[i]];
      if activations[i].instanceId in l.registered && activations[i].instanceId !in l.started {
        remaining := remaining + [activations[i].instanceId];
      }
    }
    assert activations[..|activations|] == activations;
  }

  lemma RemainingIsKnown(m0: Model, m: Model, l: Ledger, remaining: seq<Id>)
    requires Tracked(m0, m, l) && forall id | id in remaining :: id in l.registered
    ensures Known(ViewOf(m), remaining) && forall id | id in remaining :: id in m.extensions
  {
    hide Tracked;
    RegisteredIsPresent(m0, m, l);
  }

  /** After `k` starts in plan order the view is the planned one with those instances active as well. */
  ghost predicate Following(v: View, order: seq<Id>, k: nat, l: Ledger, r: Ledger, m: Model) {
    && k <= |order| && Distinct(order)
    && (forall id :: id in order <==> id in l.registered && id !in l.started)
    && r == l.(started := l.started + order[..k])
    && ViewOf(m) == After(v, order[..k])
    && forall id | id in order :: id in v.registry
  }

  lemma OrderFollows(m: Model, l: Ledger, remaining: seq<Id>, order: seq<Id>)
    requires PlannedBatch(ViewOf(m), remaining, order)
    requires forall id :: id in remaining <==> id in l.registered && id !in l.started
    ensures Following(ViewOf(m), order, 0, l, l, m)
  {
    hide IsPlan;
    PlanListsBatch(ViewOf(m), remaining, order);
    assert order[..0] == [];
    assert l.started + [] == l.started;
    assert ActiveOf(m.extensions) + Elements<Id>([]) == ActiveOf(m.extensions);
  }

  lemma NextFollows(v: View, order: seq<Id>, k: nat, l: Ledger, r: Ledger, m: Model)
    requires Following(v, order, k, l, r, m) && k < |order|
    ensures order[k] in r.registered && order[k] !in r.started && order[k] in v.registry
  {
    assert order[k] in order;
  }

  /** A planning refusal is impossible here. */
  lemma StartIsPlanned(v: View, remaining: seq<Id>, order: seq<Id>, k: nat, l: Ledger, r: Ledger, m: Model, result: EngineResult)
    requires Coordinated(v.registry, v.platform) && PlannedBatch(v, remaining, order)
    requires Following(v, order, k, l, r, m) && k < |order|
    requires result.Err? && result.error.PlanRefused? ==> RefusedWith(m, order[k], result.error.reason)
    ensures !(result.Err? && result.error.PlanRefused?)
  {
    hide IsPlan, Coordinated;
    NextFollows(v, order, k, l, r, m);
    if result.Err? && result.error.PlanRefused? {
      BatchPlanMakesEveryStartPlannable(v, remaining, order, k, PlanResult.Refused(result.error.reason));
      assert false;
    }
  }

  lemma StartFollows(v: View, order: seq<Id>, k: nat, l: Ledger, r: Ledger, m: Model, n: Model)
    requires Following(v, order, k, l, r, m) && k < |order|
    requires RegistryOf(n.extensions) == RegistryOf(m.extensions) && n.preferred == m.preferred && n.platform == m.platform && n.grants == m.grants
    requires ActiveOf(n.extensions) == ActiveOf(m.extensions) + {order[k]}
    ensures Following(v, order, k + 1, l, r.(started := r.started + [order[k]]), n)
  {
    assert order[..k + 1] == order[..k] + [order[k]];
    assert (l.started + order[..k]) + [order[k]] == l.started + order[..k + 1];
    assert Elements(order[..k + 1]) == Elements(order[..k]) + {order[k]};
    assert v.active + Elements(order[..k + 1]) == (v.active + Elements(order[..k])) + {order[k]};
  }

  lemma AllStarted(m0: Model, m: Model, activations: seq<ActivationRecord>, v: View, order: seq<Id>, l: Ledger, r: Ledger)
    requires Tracked(m0, m, r) && Following(v, order, |order|, l, r, m)
    requires |l.registered| == |activations| && forall id :: id in l.registered <==> exists a :: a in activations && a.instanceId == id
    ensures Complete(activations, r)
  {
    hide KeepsOthers, AddedLinks;
    assert order[..|order|] == order;
    forall id ensures id in r.started <==> id in r.registered {
      if id in r.started {
        assert id in Elements(r.registered);
      }
    }
  }

  // ---------- rollback ----------

  /** The only thing a rollback can report is a stop callback that failed. */
  ghost predicate OnlyStopFailures(failures: seq<CleanupFailure>, started: seq<Id>) {
    forall f | f in failures :: f.operation.StopOperation? && f.error.StopFailed? && f.instanceId in started
  }

  /** The callbacks that ran since are stops, and the failures list exactly those that failed. */
  ghost predicate Reports(before: seq<CallbackRun>, after: seq<CallbackRun>, failures: seq<CleanupFailure>) {
    && before <= after
    && (forall i | |before| <= i < |after| :: after[i].phase.Stopping?)
    && (forall i | |before| <= i < |after| && !after[i].ok :: exists f :: f in failures && HasFailure(f, after[i].owner))
    && forall f, owner | f in failures && HasFailure(f, owner) :: exists i :: |before| <= i < |after| && !after[i].ok && after[i].owner == owner
  }

  ghost predicate HasFailure(f: CleanupFailure, owner: ComponentRef) {
    f.instanceId == owner.instanceId && f.error.StopFailed? && owner.componentId in f.error.failures
  }

  lemma NothingReported(ran: seq<CallbackRun>)
    ensures Reports(ran, ran, [])
  {
  }

  /** The stop of one instance, as its result tells it. */
  ghost predicate StopReported(id: Id, r: EngineResult, before: seq<CallbackRun>, after: seq<CallbackRun>) {
    && before <= after
    && (forall i | |before| <= i < |after| :: after[i].phase.Stopping? && after[i].owner.instanceId == id)
    && match r
       case Done => forall i | |before| <= i < |after| :: after[i].ok
       case Err(e) =>
         && e.StopFailed?
         && (forall i | |before| <= i < |after| && !after[i].ok :: after[i].owner.componentId in e.failures)
         && forall c | c in e.failures :: exists i :: |before| <= i < |after| && !after[i].ok && after[i].owner == ComponentRef(id, c)
  }

  lemma StopRanIsReported(id: Id, components: seq<Id>, r: EngineResult, before: seq<CallbackRun>, after: seq<CallbackRun>)
    requires before <= after && StopRan(id, components, r, after[|before|..])
    ensures StopReported(id, r, before, after)
  {
    hide FailuresOf;
    var runs := after[|before|..];
    NoneFailedIff(runs, if r.Err? then r.error.failures else []);
    assert forall i | |before| <= i < |after| :: after[i] == runs[i - |before|];
    if r.Err? {
      forall c | c in r.error.failures ensures exists i :: |before| <= i < |after| && !after[i].ok && after[i].owner == ComponentRef(id, c) {
        var j :| 0 <= j < |runs| && !runs[j].ok && runs[j].owner.componentId == c;
        assert after[|before| + j] == runs[j];
      }
    }
  }

  lemma ReportsGoOn(before: seq<CallbackRun>, middle: seq<CallbackRun>, after: seq<CallbackRun>, failures: seq<CleanupFailure>, id: Id, r: EngineResult)
    requires Reports(before, middle, failures) && StopReported(id, r, middle, after)
    ensures Reports(before, after, if r.Err? then failures + [CleanupFailure(id, StopOperation, r.error)] else failures)
  {
    var now := if r.Err? then failures + [CleanupFailure(id, StopOperation, r.error)] else failures;
    assert forall i | 0 <= i < |middle| :: after[i] == middle[i];
    forall i | |before| <= i < |after| && !after[i].ok ensures exists f :: f in now && HasFailure(f, after[i].owner) {
      if i < |middle| {
        var f :| f in failures && HasFailure(f, middle[i].owner);
        assert f in now;
      } else {
        var f := CleanupFailure(id, StopOperation, r.error);
        assert f in now && HasFailure(f, after[i].owner);
      }
    }
    forall f, owner | f in now && HasFailure(f, owner) ensures exists i :: |before| <= i < |after| && !after[i].ok && after[i].owner == owner {
      if f in failures {
        var i :| |before| <= i < |middle| && !middle[i].ok && middle[i].owner == owner;
        assert after[i] == middle[i];
      } else {
        var i :| |middle| <= i < |after| && !after[i].ok && after[i].owner == ComponentRef(id, owner.componentId);
      }
    }
  }

  /** `cleanup_instances`: unregister what never started, then stop and unregister the rest in reverse. */
  method CleanupInstances(engine: ExtensionEngine, started: seq<Id>, registered: seq<Id>, ghost m0: Model) returns (failures: seq<CleanupFailure>)
    requires engine.Valid() && engine.Owned() && Sound(m0)
    requires Distinct(registered) && Grown(m0, engine.Abs(), Elements(registered), started)
    modifies engine`extensions, engine`contributions, engine`permissions, engine`order, engine`policyChanges, engine`stopLog,
             engine.secrets, engine.effects, engine.targets, engine.services
    ensures engine.Valid() && engine.Owned() && Grown(m0, engine.Abs(), {}, [])
    ensures OnlyStopFailures(failures, started) && Reports(old(engine.effects.ran), engine.effects.ran, failures)
  {
    hide ExtensionEngine.Valid, ExtensionEngine.Owned, Sound, Grown, Left, Reports, StopReported;
    failures := [];
    NothingReported(engine.effects.ran);
    AllLeft(m0, engine.Abs(), registered, started);
    for i := |registered| downto 0
      invariant engine.Valid() && engine.Owned() && Grown(m0, engine.Abs(), Left(registered, started, i), started)
      invariant engine.effects.ran == old(engine.effects.ran)
    {
      OneLess(registered, started, i);
      if registered[i] !in started {
        UnregisterUnstarted(engine, registered[i], Left(registered, started, i + 1), started, m0);
      }
    }
    NoneLeft(registered, started);
    for k := |started| downto 0
      invariant engine.Valid() && engine.Owned() && Grown(m0, engine.Abs(), Elements(started[..k]), started[..k])
      invariant OnlyStopFailures(failures, started) && Reports(old(engine.effects.ran), engine.effects.ran, failures)
    {
      ghost var ran := engine.effects.ran;
      assert started[..k + 1][..k] == started[..k] && started[..k + 1][k] == started[k];
      var result := Retire(engine, started[k], started[..k + 1], m0);
      ReportsGoOn(old(engine.effects.ran), ran, engine.effects.ran, failures, started[k], result);
      if result.Err? {
        failures := failures + [CleanupFailure(started[k], StopOperation, result.error)];
      }
    }
    assert started[..0] == [];
    assert Elements<Id>([]) == {};
  }

  /** The instances still there once the unstarted ones from position `i` on are gone. */
  ghost function Left(registered: seq<Id>, started: seq<Id>, i: nat): set<Id>
    requires i <= |registered|
  {
    Elements(registered[..i]) + Elements(started)
  }

  lemma AllLeft(m0: Model, m: Model, registered: seq<Id>, started: seq<Id>)
    requires Grown(m0, m, Elements(registered), started)
    ensures Left(registered, started, |registered|) == Elements(registered)
  {
    hide KeepsOthers, AddedLinks;
    assert registered[..|registered|] == registered;
    assert Elements(started) <= Elements(registered);
  }

  lemma NoneLeft(registered: seq<Id>, started: seq<Id>)
    ensures Left(registered, started, 0) == Elements(started) == Elements(started[..|started|]) && started[..|started|] == started
  {
    assert registered[..0] == [];
    assert started[..|started|] == started;
  }

  lemma OneLess(registered: seq<Id>, started: seq<Id>, i: nat)
    requires Distinct(registered) && i < |registered|
    ensures registered[i] in Left(registered, started, i + 1)
    ensures Left(registered, started, i) == if registered[i] in started then Left(registered, started, i + 1) else Left(registered, started, i + 1) - {registered[i]}
  {
    assert registered[..i + 1] == registered[..i] + [registered[i]];
    assert Elements(registered[..i + 1]) == Elements(registered[..i]) + {registered[i]};
    assert registered[i] !in registered[..i];
  }

  /** Unregistering an instance that never started succeeds: nothing was built on it. */
  method UnregisterUnstarted(engine: ExtensionEngine, id: Id, ghost added: set<Id>, ghost started: seq<Id>, ghost m0: Model)
    requires engine.Valid() && engine.Owned() && Sound(m0) && Grown(m0, engine.Abs(), added, started)
    requires id in added && id !in started
    modifies engine`extensions, engine`contributions, engine`permissions, engine`order, engine`policyChanges, engine`stopLog,
             engine.secrets, engine.effects, engine.targets, engine.services
    ensures engine.Valid() && engine.Owned() && Grown(m0, engine.Abs(), added - {id}, started) && engine.effects.ran == old(engine.effects.ran)
  {
    ShownExtensions(engine);
    hide ExtensionEngine.Valid, ExtensionEngine.Abs, Sound, Grown, Unregisters, ReregisteredElsewhere, ContributionsOwned;
    ghost var m := engine.Abs();
    EngineIsSound(engine);
    OwnedModel(engine);
    var result := engine.Unregister(id);
    OwnedModel(engine);
    UnstartedIsRemoved(m0, m, added, started, id, result, engine.Abs());
  }

  lemma OwnedModel(engine: ExtensionEngine)
    ensures engine.Owned() <==> ContributionsOwned(engine.Abs().extensions, engine.Abs().contributions)
  {
    hide ContributionsOwned;
  }

  lemma UnstartedIsRemoved(m0: Model, m: Model, added: set<Id>, started: seq<Id>, id: Id, r: EngineResult, n: Model)
    requires Sound(m0) && Sound(m) && Grown(m0, m, added, started) && id in added && id !in started
    requires ContributionsOwned(m.extensions, m.contributions) && Unregisters(m, id, r, n)
    ensures r.Done? && Grown(m0, n, added - {id}, started) && !ReregisteredElsewhere(m, id)
    ensures id in m.extensions && !m.extensions[id].state.Active?
  {
    hide Sound, KeepsOthers, AddedLinks, StoppedAll, RemovedModel;
    UnstartedHasNoDependents(m0, m, added, started, id);
    assert m.extensions[id].state.Registered?;
    RetireUnstarted(m0, m, added, started, id);
    LiveIdsAreOwn(m, id);
  }

  /** While an instance is not stopped, nobody else holds its contribution ids. */
  lemma LiveIdsAreOwn(m: Model, id: Id)
    requires ContributionsOwned(m.extensions, m.contributions) && id in m.extensions && !m.extensions[id].state.Stopped?
    ensures !ReregisteredElsewhere(m, id)
  {
    forall x, key | x != id && key in KeysOf(m.extensions[id]) ensures !HoldsKey(m.extensions, x, key) {
      assert HoldsKey(m.extensions, id, key);
    }
  }

  /** Stops and unregisters the instance that started last. The guard never refuses, and a failing stop
      callback does not keep the instance registered. */
  method Retire(engine: ExtensionEngine, id: Id, ghost started: seq<Id>, ghost m0: Model) returns (stopped: EngineResult)
    requires engine.Valid() && engine.Owned() && Sound(m0)
    requires |started| > 0 && started[|started| - 1] == id && Grown(m0, engine.Abs(), Elements(started), started)
    modifies engine`extensions, engine`contributions, engine`permissions, engine`order, engine`policyChanges, engine`stopLog,
             engine.secrets, engine.effects, engine.targets, engine.services
    ensures engine.Valid() && engine.Owned()
    ensures Grown(m0, engine.Abs(), Elements(started[..|started| - 1]), started[..|started| - 1])
    ensures stopped.Err? ==> stopped.error.StopFailed?
    ensures StopReported(id, stopped, old(engine.effects.ran), engine.effects.ran)
  {
    hide ExtensionEngine.Valid, ExtensionEngine.Abs, Sound, Grown, Stops, Unregisters, ReregisteredElsewhere, ContributionsOwned, StoppedAll, RemovedModel,
         StopReported, StopRan;
    ShownExtensions(engine);
    ghost var m := engine.Abs();
    EngineIsSound(engine);
    OwnedModel(engine);
    stopped := engine.Stop(id);
    LastIsStopped(m0, m, started, stopped, engine.Abs());
    StopRanIsReported(id, m.extensions[id].components, stopped, old(engine.effects.ran), engine.effects.ran);
    ShownExtensions(engine);
    OwnedModel(engine);
    ghost var n := engine.Abs();
    var result := engine.Unregister(id);
    OwnedModel(engine);
    LastIsRemoved(m0, m, started, n, result, engine.Abs());
  }

  lemma LastIsStopped(m0: Model, m: Model, started: seq<Id>, r: EngineResult, n: Model)
    requires Sound(m0) && |started| > 0 && Grown(m0, m, Elements(started), started)
    requires Stops(m, started[|started| - 1], true, r, n)
    ensures n == StoppedAll(m, {started[|started| - 1]})
    ensures var id := started[|started| - 1];
      && id in m.extensions && m.extensions[id].state.Active? && !(r.Err? && r.error.ProviderInUse?)
    ensures var id := started[|started| - 1]; id in n.extensions && !n.extensions[id].state.Active?
    ensures r.Err? ==> r.error.StopFailed?
  {
    hide Sound, KeepsOthers, AddedLinks, StoppedAll;
    LastStartedHasNoDependents(m0, m, started);
    LastIsActive(m, started);
    OneIsStopped(m, started[|started| - 1]);
  }

  lemma OneIsStopped(m: Model, id: Id)
    requires id in m.extensions
    ensures var n := StoppedAll(m, {id}); id in n.extensions && n.extensions[id].state.Stopped?
  {
  }

  lemma LastIsRemoved(m0: Model, m: Model, started: seq<Id>, n: Model, r: EngineResult, k: Model)
    requires Sound(m0) && Sound(m) && |started| > 0 && Grown(m0, m, Elements(started), started)
    requires ContributionsOwned(m.extensions, m.contributions)
    requires n == StoppedAll(m, {started[|started| - 1]}) && Unregisters(n, started[|started| - 1], r, k)
    ensures r.Done? && !ReregisteredElsewhere(n, started[|started| - 1])
    ensures Grown(m0, k, Elements(started[..|started| - 1]), started[..|started| - 1])
  {
    hide Sound, Grown, StoppedAll, RemovedModel, ReregisteredElsewhere, ContributionsOwned;
    var id := started[|started| - 1];
    LastStartedHasNoDependents(m0, m, started);
    RetireStarted(m0, m, started);
    StoppedForRemoval(m, id);
    HaltStops(m, id);
  }

  // ---------- activation of one composition ----------

  datatype ActivationResult = Activated(registered: seq<Id>, started: seq<Id>) | Refusal(error: HostError)

  /** The model with every preference of one scope cleared. */
  function WithoutPreferences(m: Model, scope: Id): Model {
    WithPreferences(m, m.preferred - {scope})
  }

  /** `m` again, but for the scope's preferences and the counter that numbers registrations. */
  ghost predicate RestoredBut(m: Model, scope: Id, n: Model) {
    n == WithoutPreferences(m, scope).(nextOrder := n.nextOrder)
  }

  predicate IsEnabled(a: ActivationRecord) {
    a.enabled
  }

  function Enabled(activations: seq<ActivationRecord>): (r: seq<ActivationRecord>)
    ensures forall a :: a in r <==> a in activations && a.enabled
  {
    Retain(activations, IsEnabled)
  }

  /** One entry per enabled position of the profile, in order. */
  lemma EnabledInOrder(activations: seq<ActivationRecord>)
    ensures Shows(|activations|, KeptAt(activations, IsEnabled), Enabled(activations))
  {
    RetainShows(activations, IsEnabled);
  }

  function PrimaryOf(error: HostError): HostError {
    if error.BootstrapRollback? then error.primary else error
  }

  /** Activates one composition, or leaves nothing of it behind. `at`, `l` and `ran` show the engine, the ledger and the
      callbacks when the run ended, before any rollback. A refusal has one of the causes it names, and a failed rollback
      lists exactly the stop callbacks that failed in it. */
  method ActivateComposition(engine: ExtensionEngine, store: Store, profile: Records, scope: Id)
    returns (r: ActivationResult, ghost at: Model, ghost l: Ledger, ghost ran: seq<CallbackRun>)
    requires engine.Valid() && engine.Owned() && ValidStore(store)
    modifies engine, engine.secrets, engine.effects, engine.targets, engine.services
    ensures engine.Valid() && engine.Owned()
    ensures r.Refusal? && r.error.ScopeMismatch? <==> !InScope(profile, scope)
    ensures r.Refusal? && r.error.ScopeMismatch? ==> FirstOther(ScopesNamed(profile), scope, r.error.actual)
    ensures r.Refusal? && PrimaryOf(r.error).UnsupportedContent? <==> InScope(profile, scope) && !Supported(profile)
    ensures r.Activated? ==>
      && l == Ledger(r.registered, r.started, l.bootstrap) && InPlace(store, profile, scope, engine.Abs(), l)
      && Grown(WithoutPreferences(old(engine.Abs()), scope), engine.Abs(), Elements(r.registered), r.started)
    ensures r.Refusal? ==> if r.error.ScopeMismatch? then engine.Abs() == old(engine.Abs()) else RestoredBut(old(engine.Abs()), scope, engine.Abs())
    ensures r.Refusal? && r.error.BootstrapRollback? ==> r.error.failures != [] && OnlyStopFailures(r.error.failures, l.started)
    ensures r.Refusal? && !r.error.ScopeMismatch? ==>
      Reports(ran, engine.effects.ran, if r.error.BootstrapRollback? then r.error.failures else [])
    ensures r.Refusal? && !r.error.ScopeMismatch? ==>
      if PrimaryOf(r.error).UnsupportedContent? then FirstUnsupported(Enabled(profile.activations), PrimaryOf(r.error).content)
      else Cause(store, profile, at, Enabled(profile.activations), l, ran, PrimaryOf(r.error))
    ensures r.Refusal? && PrimaryOf(r.error).BootstrapStalled? ==>
      GenuineStall(store, at, Enabled(profile.activations), l, PrimaryOf(r.error).stall)
  {
    hide ExtensionEngine.Valid, ExtensionEngine.Owned, ExtensionEngine.Abs, ContributionsOwned, Grown, Tracked, GenuineStall, Sound, WithPreferences, RestoredBut, InScope, FirstOther, ScopesNamed, ValidStore,
         InPlace, Supported,
         Cause, FirstUnsupported, Reports;
    ghost var m := engine.Abs();
    OwnedModel(engine);
    at, l, ran := m, Ledger([], [], {}), engine.effects.ran;
    var mismatch := ValidateScope(profile, scope);
    if mismatch.Some? {
      return Refusal(ScopeMismatch(mismatch.value)), at, l, ran;
    }
    engine.ClearPreferredProviderPolicies(scope);
    EngineIsSound(engine);
    OwnedModel(engine);
    ghost var m0 := engine.Abs();
    ScopeIsCleared(m, scope);
    var error, ledger := Prepare(engine, store, profile, scope, m0);
    l, at, ran := ledger, engine.Abs(), engine.effects.ran;
    TrackedIsGrown(m0, at, ledger);
    if error.None? {
      return Activated(ledger.registered, ledger.started), at, l, ran;
    }
    var failures := CleanupInstances(engine, ledger.started, ledger.registered, m0);
    ghost var cleaned := engine.Abs();
    PreferencesShown(engine);
    engine.ClearPreferredProviderPolicies(scope);
    EngineIsSound(engine);
    OwnedModel(engine);
    Restored(m, scope, cleaned, engine.Abs());
    return Refusal(if failures == [] then error.value else BootstrapRollback(error.value, failures)), at, l, ran;
  }

  /** The scopes that the records name, list by list. */
  function ScopesNamed(profile: Records): (scopes: seq<Id>)
    ensures |scopes| == |profile.activations| + |profile.preferredProviders| + |profile.runtimePermissions| + |profile.preferences|
  {
    seq(|profile.activations|, i requires 0 <= i < |profile.activations| => profile.activations[i].scopeId)
      + seq(|profile.preferredProviders|, i requires 0 <= i < |profile.preferredProviders| => profile.preferredProviders[i].scopeId)
      + seq(|profile.runtimePermissions|, i requires 0 <= i < |profile.runtimePermissions| => profile.runtimePermissions[i].scopeId)
      + seq(|profile.preferences|, i requires 0 <= i < |profile.preferences| => profile.preferences[i].scopeId)
  }

  lemma InScopeNames(profile: Records, scope: Id)
    ensures InScope(profile, scope) <==> forall i | 0 <= i < |ScopesNamed(profile)| :: ScopesNamed(profile)[i] == scope
  {
    var named := ScopesNamed(profile);
    var a, s, g := |profile.activations|, |profile.preferredProviders|, |profile.runtimePermissions|;
    if forall i | 0 <= i < |named| :: named[i] == scope {
      forall i | 0 <= i < a ensures profile.activations[i].scopeId == scope {
        assert named[i] == profile.activations[i].scopeId;
      }
      forall i | 0 <= i < s ensures profile.preferredProviders[i].scopeId == scope {
        assert named[a + i] == profile.preferredProviders[i].scopeId;
      }
      forall i | 0 <= i < g ensures profile.runtimePermissions[i].scopeId == scope {
        assert named[a + s + i] == profile.runtimePermissions[i].scopeId;
      }
      forall i | 0 <= i < |profile.preferences| ensures profile.preferences[i].scopeId == scope {
        assert named[a + s + g + i] == profile.preferences[i].scopeId;
      }
    }
  }

  /** `validate_scope`: the first record of another scope, searching activations, selections, approvals and preferences
      in this order. */
  method ValidateScope(profile: Records, scope: Id) returns (mismatch: Option<Id>)
    ensures mismatch.None? <==> InScope(profile, scope)
    ensures mismatch.Some? ==> FirstOther(ScopesNamed(profile), scope, mismatch.value)
  {
    hide InScope, ScopesNamed;
    InScopeNames(profile, scope);
    var named := ScopesNamed(profile);
    for i := 0 to |named|
      invariant forall j | 0 <= j < i :: named[j] == scope
    {
      if named[i] != scope {
        return Some(named[i]);
      }
    }
    return None;
  }

  ghost predicate FirstOther(scopes: seq<Id>, scope: Id, other: Id) {
    exists i :: 0 <= i < |scopes| && scopes[i] == other && other != scope && forall j | 0 <= j < i :: scopes[j] == scope
  }

  method EnabledActivations(profile: Records) returns (activations: seq<ActivationRecord>)
    ensures activations == Enabled(profile.activations)
  {
    activations := [];
    for i := 0 to |profile.activations|
      invariant activations == Enabled(profile.activations[..i])
    {
      assert profile.activations[..i + 1][..i] == profile.activations[..i];
      if profile.activations[i].enabled {
        activations := activations + [profile.activations[i]];
      }
    }
    assert profile.activations[..|profile.activations|] == profile.activations;
  }

  lemma ScopeIsCleared(m: Model, scope: Id)
    requires Sound(WithoutPreferences(m, scope))
    ensures Tracked(WithoutPreferences(m, scope), WithoutPreferences(m, scope), Ledger([], [], {}))
    ensures scope !in WithoutPreferences(m, scope).preferred
  {
    hide Sound, Grown;
    NothingAdded(WithoutPreferences(m, scope));
    assert Elements<Id>([]) == {};
  }

  lemma TrackedIsGrown(m0: Model, m: Model, l: Ledger)
    requires Tracked(m0, m, l)
    ensures Distinct(l.registered) && Grown(m0, m, Elements(l.registered), l.started)
  {
    hide Grown;
  }

  /** Checks the content types, restores the profile's provider choices, and runs the loops. */
  method Prepare(engine: ExtensionEngine, store: Store, profile: Records, scope: Id, ghost m0: Model)
    returns (error: Option<HostError>, l: Ledger)
    requires engine.Valid() && engine.Owned() && ValidStore(store) && InScope(profile, scope)
    requires engine.Abs() == m0 && Tracked(m0, m0, Ledger([], [], {})) && scope !in m0.preferred
    modifies engine, engine.effects, engine.targets, engine.services
    ensures engine.Valid() && engine.Owned() && Tracked(m0, engine.Abs(), l)
    ensures engine.preferred - {scope} == m0.preferred
    ensures error.None? ==> InPlace(store, profile, scope, engine.Abs(), l)
    ensures error.Some? && error.value.BootstrapStalled? ==> GenuineStall(store, engine.Abs(), Enabled(profile.activations), l, error.value.stall)
    ensures Supported(profile) <==> !(error.Some? && error.value.UnsupportedContent?)
    ensures error.Some? && !error.value.UnsupportedContent? ==>
      RunFailure(error.value) && Cause(store, profile, engine.Abs(), Enabled(profile.activations), l, engine.effects.ran, error.value)
    ensures error.Some? && error.value.UnsupportedContent? ==> FirstUnsupported(Enabled(profile.activations), error.value.content)
  {
    hide ExtensionEngine.Valid, ExtensionEngine.Owned, ExtensionEngine.Abs, Tracked, GenuineStall, ValidStore, Complete, AllFaithful, Supported,
         Chosen, Cause, FirstUnsupported, InPlace;
    l := Ledger([], [], {});
    var activations := EnabledActivations(profile);
    PreferencesShown(engine);
    assert engine.preferred - {scope} == m0.preferred;
    var unsupported := CheckContent(profile, activations);
    if unsupported.Some? {
      return Some(UnsupportedContent(unsupported.value)), l;
    }
    RestoreChoices(engine, profile.preferredProviders, scope, m0);
    error, l := Run(engine, store, profile, activations, m0);
    PreferencesShown(engine);
    if error.None? {
      AllInPlace(store, profile, scope, engine.Abs(), l);
    }
  }

  /** What a successful activation leaves: every enabled activation of the profile is registered from its artifact and
      started, with exactly the approved permissions, and the scope prefers the chosen providers. */
  ghost predicate InPlace(store: Store, profile: Records, scope: Id, m: Model, l: Ledger) {
    && Complete(Enabled(profile.activations), l) && AllFaithful(store, profile, m, Enabled(profile.activations))
    && PreferencesIn(m.preferred, scope) == Chosen(profile.preferredProviders)
  }

  lemma AllInPlace(store: Store, profile: Records, scope: Id, m: Model, l: Ledger)
    requires Complete(Enabled(profile.activations), l) && AllFaithful(store, profile, m, Enabled(profile.activations))
    requires PreferencesIn(m.preferred, scope) == Chosen(profile.preferredProviders)
    ensures InPlace(store, profile, scope, m, l)
  {
  }

  /** The content of the first activation that names something else than an extension. */
  ghost predicate FirstUnsupported(activations: seq<ActivationRecord>, content: string) {
    exists i :: 0 <= i < |activations| && activations[i].content == content && content != EXTENSION_CONTENT
                && forall j | 0 <= j < i :: activations[j].content == EXTENSION_CONTENT
  }

  method CheckContent(profile: Records, activations: seq<ActivationRecord>) returns (unsupported: Option<string>)
    requires activations == Enabled(profile.activations)
    ensures unsupported.None? <==> Supported(profile)
    ensures unsupported.Some? ==> FirstUnsupported(activations, unsupported.value)
  {
    for i := 0 to |activations|
      invariant forall j | 0 <= j < i :: activations[j].content == EXTENSION_CONTENT
    {
      if activations[i].content != EXTENSION_CONTENT {
        return Some(activations[i].content);
      }
    }
    return None;
  }

  /** Restores the profile's provider choices in the scope. */
  method RestoreChoices(engine: ExtensionEngine, choices: seq<ProviderSelection>, scope: Id, ghost m0: Model)
    requires engine.Valid() && engine.Owned() && Tracked(m0, engine.Abs(), Ledger([], [], {}))
    requires engine.preferred == m0.preferred && scope !in m0.preferred && forall c | c in choices :: c.scopeId == scope
    modifies engine`preferred, engine.services
    ensures engine.Valid() && engine.Owned() && Tracked(m0, engine.Abs(), Ledger([], [], {}))
    ensures engine.preferred - {scope} == m0.preferred && PreferencesIn(engine.preferred, scope) == Chosen(choices)
  {
    hide ExtensionEngine.Valid, ExtensionEngine.Owned, ExtensionEngine.Abs, Tracked;
    PreferencesShown(engine);
    assert engine.preferred - {scope} == m0.preferred;
    for i := 0 to |choices|
      invariant engine.Valid() && engine.Owned() && Tracked(m0, engine.Abs(), Ledger([], [], {}))
      invariant engine.preferred - {scope} == m0.preferred
      invariant PreferencesIn(engine.preferred, scope) == Chosen(choices[..i])
    {
      var choice := choices[i];
      assert choices[..i + 1][..i] == choices[..i];
      ghost var m := engine.Abs();
      PreferencesShown(engine);
      engine.SetPreferredProviderPolicy(choice.scopeId, choice.contract, choice.provider);
      PreferencesShown(engine);
      PreferringStaysInScope(m0, m, Ledger([], [], {}), scope, choice);
    }
    assert choices[..|choices|] == choices;
  }

  /** Every enabled activation names content the host can load. */
  ghost predicate Supported(profile: Records) {
    forall a | a in Enabled(profile.activations) :: a.content == EXTENSION_CONTENT
  }

  /** The provider chosen for each contract; a later selection replaces an earlier one. */
  function Chosen(selections: seq<ProviderSelection>): (r: map<ContractKey, ComponentRef>)
    ensures forall c :: c in r <==> exists i :: 0 <= i < |selections| && selections[i].contract == c
    ensures forall i | 0 <= i < |selections| && (forall j | i < j < |selections| :: selections[j].contract != selections[i].contract) ::
      r[selections[i].contract] == selections[i].provider
  {
    if selections == [] then map[]
    else
      var last := selections[|selections| - 1];
      assert selections == selections[..|selections| - 1] + [last];
      Chosen(selections[..|selections| - 1])[last.contract := last.provider]
  }

  lemma PreferencesShown(engine: ExtensionEngine)
    ensures engine.Abs().preferred == engine.preferred
  {
  }

  lemma PreferringStaysInScope(m0: Model, m: Model, l: Ledger, scope: Id, choice: ProviderSelection)
    requires Tracked(m0, m, l) && choice.scopeId == scope && m.preferred - {scope} == m0.preferred
    ensures var preferred := m.preferred[choice.scopeId := PreferencesIn(m.preferred, choice.scopeId)[choice.contract := choice.provider]];
      Tracked(m0, WithPreferences(m, preferred), l) && preferred - {scope} == m0.preferred
      && WithPreferences(m, preferred).preferred == preferred
  {
    hide Grown;
    var preferred := m.preferred[choice.scopeId := PreferencesIn(m.preferred, choice.scopeId)[choice.contract := choice.provider]];
    PreferencesStayGrown(m0, m, Elements(l.registered), l.started, preferred);
  }

  /** After the rollback only the scope's own preferences and the registration counter differ. */
  lemma Restored(m: Model, scope: Id, cleaned: Model, n: Model)
    requires Sound(WithoutPreferences(m, scope)) && Sound(n) && Grown(WithoutPreferences(m, scope), cleaned, {}, [])
    requires cleaned.preferred - {scope} == WithoutPreferences(m, scope).preferred
    requires n == WithPreferences(cleaned, cleaned.preferred - {scope})
    requires ContributionsOwned(m.extensions, m.contributions) && ContributionsOwned(n.extensions, n.contributions)
    ensures RestoredBut(m, scope, n)
  {
    hide Sound, Grown, ContributionsOwned;
    var m0 := WithoutPreferences(m, scope);
    PreferencesStayGrown(m0, cleaned, {}, [], cleaned.preferred - {scope});
    NothingLeft(m0, n);
  }
}
