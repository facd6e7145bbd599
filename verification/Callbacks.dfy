/** Component callbacks: arbitrary finite scripts of host calls made for one component. */
module Callbacks {
  import opened Identifiers
  import opened RuntimeEffects
  import opened ExecutionTargets
  import opened Lists

  datatype HostCall =
    | RegisterEffect(effect: Effect)
    | RevokeEffect(id: EffectId)
    | RevokeAllEffects
    | RegisterTarget(target: string)

  /** Some callback behaviour and whether it reports success. */
  method AnyBehaviour() returns (script: seq<HostCall>, ok: bool)
  {
    script, ok := *, *;
  }

  /** Runs one `start`, `stop` or `poll_runtime` callback. It may fail, and whatever it does to the
      registries stays within its own instance. */
  method RunCallback(owner: ComponentRef, phase: CallbackPhase, effects: RuntimeEffectRegistry, targets: ExecutionTargetRegistry)
    returns (ok: bool)
    requires effects.Valid()
    modifies effects, targets
    ensures effects.Valid()
    ensures effects.ran == old(effects.ran) + [CallbackRun(owner, phase, ok)]
    ensures EffectsOutside(effects.effects, owner.instanceId) == EffectsOutside(old(effects.effects), owner.instanceId)
    ensures HostsOutside(targets.hosts, owner.instanceId) == HostsOutside(old(targets.hosts), owner.instanceId)
  {
    var script, result := AnyBehaviour();
    for i := 0 to |script|
      invariant effects.Valid() && effects.ran == old(effects.ran)
      invariant EffectsOutside(effects.effects, owner.instanceId) == EffectsOutside(old(effects.effects), owner.instanceId)
      invariant HostsOutside(targets.hosts, owner.instanceId) == HostsOutside(old(targets.hosts), owner.instanceId)
    {
      match script[i] {
        case RegisterEffect(effect) =>
          var _ := effects.Register(owner, effect);
        case RevokeEffect(id) =>
          var _ := effects.Revoke(id, owner);
        case RevokeAllEffects =>
          effects.RevokeComponent(owner);
        case RegisterTarget(target) =>
          var _ := targets.Register(owner, target);
      }
    }
    effects.ran := effects.ran + [CallbackRun(owner, phase, result)];
    return result;
  }

  // ---------- which callbacks ran ----------

  /** The stop callbacks of the components ran in reverse order. */
  ghost predicate AllStopped(instance: Id, components: seq<Id>, runs: seq<CallbackRun>) {
    && |runs| == |components|
    && forall i | 0 <= i < |runs| ::
         runs[i].phase.Stopping? && runs[i].owner == ComponentRef(instance, components[|components| - 1 - i])
  }

  /** The start callbacks of the first `n` components ran in order, and all succeeded. */
  ghost predicate AllStarted(instance: Id, components: seq<Id>, n: nat, runs: seq<CallbackRun>) {
    && |runs| == n <= |components|
    && forall i | 0 <= i < n :: runs[i] == CallbackRun(ComponentRef(instance, components[i]), Starting, true)
  }

  function FailureAt(runs: seq<CallbackRun>): nat -> Option<Id> {
    (p: nat) => if p < |runs| && !runs[p].ok then Some(runs[p].owner.componentId) else None
  }

  /** The components whose callbacks failed, in the order in which they ran. */
  ghost predicate FailuresOf(runs: seq<CallbackRun>, failures: seq<Id>) {
    Shows(|runs|, FailureAt(runs), failures)
  }

  lemma NoFailures()
    ensures FailuresOf([], [])
  {
    ShowsNothing(FailureAt([]));
  }

  lemma FailuresGoOn(runs: seq<CallbackRun>, failures: seq<Id>, run: CallbackRun)
    requires FailuresOf(runs, failures)
    ensures FailuresOf(runs + [run], if run.ok then failures else failures + [run.owner.componentId])
  {
    assert failures + [] == failures;
    ShowsNext(|runs|, FailureAt(runs), failures, FailureAt(runs + [run]));
  }

  /** Nothing failed exactly when no failure is listed. */
  lemma NoneFailedIff(runs: seq<CallbackRun>, failures: seq<Id>)
    requires FailuresOf(runs, failures)
    ensures failures == [] <==> forall i | 0 <= i < |runs| :: runs[i].ok
    ensures forall c | c in failures :: exists i :: 0 <= i < |runs| && !runs[i].ok && runs[i].owner.componentId == c
    ensures forall i | 0 <= i < |runs| && !runs[i].ok :: runs[i].owner.componentId in failures
  {
    hide Shows;
    forall i | 0 <= i < |runs| && !runs[i].ok ensures runs[i].owner.componentId in failures {
      ImageIsShown(|runs|, FailureAt(runs), failures, i);
    }
    forall c | c in failures ensures exists i :: 0 <= i < |runs| && !runs[i].ok && runs[i].owner.componentId == c {
      var p := ShownHasPosition(|runs|, FailureAt(runs), failures, c);
    }
    if failures != [] {
      assert failures[0] in failures;
    }
  }
}
