# Verification model of the extension engine and host runtime

This project models four interlocking state machines of the Rintawa host and proves what they keep: the
composition planner and resolver, the extension lifecycle with its bootstrap and rollback, the service router
with its cache and provider handles, and the host-owned bounded state. `dafny verify dfyconfig.toml` checks it.

## How it is built

* Values and methods side by side. Code that changes state is a class with the source's fields and loops
  (`SecretManager`, `ServiceRuntime`, `RuntimeEffectRegistry`, `ExecutionTargetRegistry`, `ExtensionEngine`,
  `CompositionProfile`, `OperationControl`, `UserResourceControl`, `WorldSessionControl`); its contracts tie the new
  abstract value to the old one, and the properties are lemmas about those values.
* The engine's abstract value is `EngineModel.Model`; `Sound` is the invariant of every engine method: declared
  endpoints coordinated per scope, router tables mirroring the engine, effects and execution targets owned by active
  instances, dependency edges leading to earlier registrations, grants and permissions covered by manifests.
* Component callbacks are arbitrary finite scripts of host calls that may fail (`Callbacks`). The registry they write to
  keeps a ghost trace of (component, phase, outcome), and the contracts of starts, stops, sweeps, pumps and rollbacks
  say which runs it grew by. UUIDs are a supply of ids given to the operation. Locks are atomic steps, except where the
  revision protocol depends on what happens in between: `RouteProtocol` and `WorldSessions` are state machines over
  single steps, with theorems over all runs.
* Hash maps are iterated in any order.

| files | what they model |
|---|---|
| Identifiers, Strings, Lists, Saturation | ids and orders, splitting, filtering and weighing lists, saturating sizes |
| Composition, DependencyGraph, Activation, Scopes, Gathering, Planning, Planner | contract resolution and activation planning |
| SecretPatterns, SecretPolicy | secret path patterns and read grants |
| ServiceTables, ProviderHandles, ServiceRuntime, QueryPrograms, RouteProtocol, PolicyWrap, StaleReplies | service routing and its revision protocol |
| RuntimeEffects, ExecutionTargets, Callbacks, Registration, EngineModel, EngineSteps, Engine, Quarantine, EngineRouting, ContributionReuse | the extension engine |
| ArtifactLoader, BootstrapModel, Bootstrap, HostRuntime | loading and activating one composition, and rolling it back |
| ProfileRecords, Profile, Materialization | composition profiles |
| DeferredOperations, UserResources, WorldSessions | host-owned queues, ledgers and world sessions |
| ArchivePaths, ArchiveEntries | archive entry acceptance |

## What the proofs show about the code

These behaviours follow from the code as it stands; for each, the named lemmas say exactly when the code meets the
property or exhibit a run that does not.

* Unregistering removes a stopped instance's contribution ids even when a live instance has registered one of them
  again meanwhile (`EngineModel.RemovalKeepsContributionsIff`, reached in `ContributionReuse.ReuseLosesOwnership`).
* The policy revision identifies a policy only below 2^64 changes; the topology revision may wrap freely
  (`RouteProtocol.RouteCacheIsTransparent`, `StaleReplies.StaleHitIsReachable`).
* A refused listing (`list_providers_with_mode`, lines 502-509) is not compared with the revision again. It is tied to
  the policy it read if no policy change came in between, or if its reason does not depend on the policy
  (`RouteProtocol.RefusalIsFreshUnlessPolicyMoved`); otherwise it can be wrong under every policy there ever was
  (`StaleReplies.RefusedUnderNoPolicy`).
* A world deleted by a callback of its own activation does not come up. Only a deletion after its storage was opened and
  before the outcome is recorded leaves a running world without storage (`WorldSessions.DeletionIsSafeIff`); the host
  runs no component in between, so this takes a caller on another thread (`WorldSessions.CallbackDeletionsAreSafe`,
  `WorldSessions.DeletedWhileActivating`).
* World requests that are drained while the home cannot be opened are lost without a diagnostic
  (`WorldSessions.RequestsCanBeLost`).
* A user-content batch that is drained while the home cannot be opened stays pending for good and keeps its place in
  the status table (`DeferredOperations.LostBatchesAccumulate`).
* Materialization renames consistently if and only if no included activation repeats an instance id, which validation
  does not rule out (`Materialization.RenamingIsConsistentIff`, `Materialization.RepeatedInstanceIsValid`).
* A directory entry `a//` is accepted beside `a/` under the name `a/` (`ArchivePaths.CanonicalNameIff`).

## Model

| member | source | states |
|---|---|---|
| `Identifiers.ContractTextIsInjective` | crates/sdk/src/contracts.rs:54-58 | contracts may contain `@`, yet two contracts never share the text they are sorted by |
| `Identifiers.BeforeIsTextOrder` | crates/extension-engine/src/composition.rs:244-249 | one text comes before another if and only if it is a proper prefix or has the smaller character at the first difference |
| `Identifiers.KeysOrderComponents` | crates/extension-engine/src/composition.rs:244-249 | the sort key orders components by instance id, and among equal ones by component id |
| `Composition.ResolveContractProviders` | crates/extension-engine/src/composition.rs:177-232 | the preferred provider if eligible, else for `Single` the one eligible owner that comes before every other by instance id and then component id, as texts, and for `Multiple` all of them in that order; each failure reason exactly when the source gives it |
| `Composition.ResolveContracts` | crates/extension-engine/src/composition.rs:99-175 | for coherent definitions and unique endpoints the result lists, in key order, exactly one entry per consumer: its binding or its failure |
| `Composition.KeysOrderEndpoints` | crates/extension-engine/src/composition.rs:163-175 | bindings and failures are listed by component and then by the text of the contract |
| `Composition.SnapshotIsUnique` | crates/extension-engine/src/composition.rs:99-175 | the snapshot is a function of the sets of definitions, providers and consumers |
| `Composition.ReorderedListsResolveAlike` | crates/extension-engine/src/composition.rs:99-175 | permuting definitions, providers and consumers never changes the snapshot |
| `Composition.EachConsumerIsReportedOnce` | crates/extension-engine/src/composition.rs:117-164 | each consumer endpoint is in exactly one of bindings and unresolved, and nothing else is in either |
| `Scopes.ScopeIsWellFormed` | crates/extension-engine/src/engine.rs:2269-2310 | coordinated registrations give every scope coherent definitions and unique endpoints, so resolution applies to it |
| `Scopes.PlatformContractRules` | crates/extension-engine/src/engine.rs:2269-2310 | a platform contract is defined by no instance of its scope, and is resolved there as the platform defines it |
| `Scopes.PreferenceRules` | crates/extension-engine/src/composition.rs:190-205 | a preference decides every eligible consumer of its `Single` contract in its scope: the preferred provider if it is eligible, else none |
| `Scopes.OtherPreferencesDoNotMatter` | crates/extension-engine/src/engine.rs:2297-2309 | preferences of other scopes, for other contracts or for `Multiple` contracts never change an outcome |
| `Scopes.BindingSurvives` | crates/extension-engine/src/engine.rs:2269-2310 | a binding stays the same among fewer instances that keep its providers and some definition of its contract |
| `DependencyGraph.OrderByReadiness` | crates/extension-engine/src/activation.rs:165-187 | the heap loop emits the least order by input position, or stops with every remaining position still waiting for another |
| `DependencyGraph.FindCycle` | crates/extension-engine/src/activation.rs:203-241 | in a stalled graph the walk from the first blocked position to least blocked providers ends with a cycle whose every next element is a provider of the previous one; its fallback branches are unreachable |
| `DependencyGraph.ReportedCycleIsUnique` | crates/extension-engine/src/activation.rs:203-241 | the graph determines which cycle is reported |
| `DependencyGraph.LeastIsUnique` | crates/extension-engine/src/activation.rs:168-187 | the least topological order is unique |
| `DependencyGraph.CycleForbidsOrder` | crates/extension-engine/src/activation.rs:189-200 | a graph with a cycle has no topological order |
| `DependencyGraph.ValidInputOrderIsKept` | crates/extension-engine/src/engine.rs:2081-2082 | an input order that already respects the dependencies is returned unchanged |
| `Activation.BuildActivationPlan` | crates/extension-engine/src/activation.rs:94-201 | the plan or refusal described by the required graph: first duplicate, first blocking failure, the cycle the graph determines, or the least order |
| `Activation.RefusedExactlyOnCycles` | crates/extension-engine/src/activation.rs:189-200 | with distinct instances and nothing unresolved, refusal happens if and only if the required graph has a cycle, and names one |
| `Activation.PlanRespectsDependencies` | crates/extension-engine/src/activation.rs:125-200 | a plan is a permutation of the batch with every required provider before its consumer |
| `Activation.PlanIsDetermined` | crates/extension-engine/src/activation.rs:94-201 | two results for one input are equal, down to the reported cycle |
| `Planner.LeastDefinitionOwner` | crates/extension-engine/src/engine.rs:2131-2142 | the least component among the eligible instances defining a contract |
| `Planner.ResolveScope` | crates/extension-engine/src/engine.rs:2269-2310 | resolution of one scope among any set of instances, whatever order they are visited in |
| `Planner.PlanBatch` | crates/extension-engine/src/engine.rs:2092-2157 | planning a batch: every scope resolved among active and scheduled instances, definition owners ordered before required consumers |
| `Planning.BatchPlanMakesEveryStartPlannable` | crates/extension-engine/src/engine.rs:2092-2157 | once a batch plan exists, planning its k-th instance alone, with only the earlier ones active, yields that instance |
| `Planning.SinglesRefusedThenBatchRefused` | crates/host/src/runtime.rs:3031-3043 | if each instance of a non-empty batch is refused alone, the batch is refused |
| `SecretPatterns.ParsePatternRoundTrip` | crates/sdk/src/secrets.rs:98-155 | parsing the text of a valid pattern gives the pattern back |
| `SecretPatterns.ValidPathIff` | crates/sdk/src/secrets.rs:25-40 | over the characters: runs of lower-case letters, digits and underscores with single dots between them |
| `SecretPatterns.AllowsPatternIsInclusion` | crates/sdk/src/secrets.rs:117-146 | a request allows a pattern if and only if every valid path the pattern matches is matched by the request |
| `SecretPatterns.RequirementMetIffAllReadable` | crates/extension-engine/src/secrets.rs:195-209 | no finite list of narrower grants adds up: a requirement is met if and only if every path it names can be read |
| `SecretPolicy.GrantMeansReadable` | crates/extension-engine/src/secrets.rs:195-209 | `has_read_grant` holds if and only if the component may read every path of the required pattern |
| `SecretPolicy.SecretManager.GrantRead` | crates/extension-engine/src/secrets.rs:172-188 | adds the pattern once; the revision moves exactly when the policy does |
| `SecretPolicy.SecretManager.RevokeComponent` | crates/extension-engine/src/secrets.rs:211-219 | drops all grants of one component; the revision moves exactly when there were any |
| `RuntimeEffects.RuntimeEffectRegistry.Register` | crates/extension-engine/src/runtime_effects.rs:28-49 | an effect gets an identifier never issued before, unless its topic is blank or the counter is exhausted |
| `RuntimeEffects.RuntimeEffectRegistry.Revoke` | crates/extension-engine/src/runtime_effects.rs:51-71 | only the owner revokes an effect |
| `RuntimeEffects.RuntimeEffectRegistry.SubscribersOf` | crates/extension-engine/src/runtime_effects.rs:87-131 | each subscribed component once, in principal order |
| `ExecutionTargets.ExecutionTargetRegistry.Register` | crates/extension-engine/src/execution_targets.rs:45-67 | a valid, unreserved, free target gets one owner; anything else is refused |
| `ExecutionTargets.RevocationFreesOwnTargets` | crates/extension-engine/src/execution_targets.rs:91-99 | revoking an instance makes available exactly the targets it owned, and undoes any registration of its own |
| `ExecutionTargets.ValidTargetIff` | crates/sdk/src/manifest/mod.rs:67-117 | a text is a target if and only if it is an identifier, `@` and the decimal text of a 32-bit major version, and it determines both |
| `ExecutionTargets.TargetNameIff` | crates/sdk/src/manifest/mod.rs:75-104 | over the characters: at most 128, lower-case runs with single dots between them, a letter or digit at both ends of each |
| `Callbacks.RunCallback` | crates/extension-engine/src/engine.rs:1080-1165 | a callback may do anything through its context and fail, but touches only its own instance's effects and targets; the run and its outcome enter the trace |
| `ServiceTables.ActiveCallerSeesScope` | crates/extension-engine/src/services.rs:832-866 | an active caller sees its scope as the engine's active composition does |
| `ServiceRuntime.ServiceRuntime.TopologyChanged` | crates/extension-engine/src/services.rs:104-109 | every topology change empties the cache and both handle maps |
| `ServiceRuntime.ServiceRuntime.DefinePlatformContract` | crates/extension-engine/src/services.rs:288-304 | defines a contract or reports a conflict, keeping cached results current |
| `ServiceRuntime.ServiceRuntime.RegisterInstance` | crates/extension-engine/src/services.rs:316-338 | adds an inactive instance exactly when its id is free, keeping tables coordinated and the cache current |
| `ServiceRuntime.ServiceRuntime.SetActive` | crates/extension-engine/src/services.rs:350-371 | flips the activity flag of a known instance, refuses an unknown one, and keeps the cache current |
| `ServiceRuntime.ServiceRuntime.SetPreferredProvider` | crates/extension-engine/src/services.rs:373-388 | stores one preference, keeping the cache current |
| `ServiceRuntime.ServiceRuntime.ClearPreferredProvider` | crates/extension-engine/src/services.rs:390-413 | removes one preference and an emptied scope, keeping the cache current |
| `ServiceRuntime.DefiningAddsOne` | crates/extension-engine/src/services.rs:288-304 | a platform definition becomes visible in its own scope, and no other lookup changes |
| `ServiceRuntime.ClearingDropsOne` | crates/extension-engine/src/services.rs:390-413 | clearing removes one preference from its scope, no other lookup changes, and no scope is left empty |
| `ServiceRuntime.ServiceRuntime.ResolveBindingUncached` | crates/extension-engine/src/services.rs:832-920 | the reference binding of the caller, in any visiting order |
| `ServiceRuntime.ServiceRuntime.ResolveProvider` | crates/extension-engine/src/services.rs:740-815 | the reply is uncached resolution of the current tables and grants, hit or not |
| `ServiceRuntime.ServiceRuntime.IssueProviderHandle` | crates/extension-engine/src/services.rs:119-136 | one handle per binding, never a used value, none after the counter is exhausted |
| `ServiceRuntime.ServiceRuntime.ListProviders` | crates/extension-engine/src/services.rs:489-526 | handles for a `Multiple` binding in binding order, or the exact refusal |
| `ServiceRuntime.ServiceRuntime.ResolveProviderHandle` | crates/extension-engine/src/services.rs:551-587 | a handle answers exactly its own caller and mode, under its policy revision, while its provider component exists |
| `ProviderHandles.IssueKeepsConsistent` | crates/extension-engine/src/services.rs:119-136 | issuing keeps the two handle maps mutually inverse |
| `QueryPrograms.BindingAnswer` | crates/extension-engine/src/services.rs:832-920 | asking the grant policy one query at a time gives the reference binding when the policy does not change |
| `RouteProtocol.ResolverProgramComputes` | crates/extension-engine/src/services.rs:832-920 | the resolver's own query order is such a program, whatever order it gathered the endpoints in |
| `RouteProtocol.StepKeepsInv` | crates/extension-engine/src/services.rs:740-815 | every step of every interleaving keeps the protocol invariant |
| `RouteProtocol.HitIsFresh` | crates/extension-engine/src/services.rs:752-780 | a hit returns what a fresh resolution would, under the grants of the revision that was read |
| `RouteProtocol.RouteCacheIsTransparent` | crates/extension-engine/src/services.rs:104-109 | in every interleaved run each cached route and each reply is uncached resolution under the grants of its revision, though the topology revision wraps |
| `RouteProtocol.RefusalIsFreshUnlessPolicyMoved` | crates/extension-engine/src/services.rs:497-509 | in every run a refused listing is what uncached resolution gives under the revision read, if no policy change came in between or the caller is no consumer or the contract no service |
| `StaleReplies.RefusedUnderNoPolicy` | crates/extension-engine/src/services.rs:502-509 | a run in which two providers take turns in being granted and a listing is refused although no policy of the run refuses it |
| `RouteProtocol.HandlesResolveSafely` | crates/extension-engine/src/services.rs:551-587 | a handle that passes the checks names a provider in its caller's `Multiple` binding for the tables and policy in force |
| `RouteProtocol.HandlesAreNeverReused` | crates/extension-engine/src/services.rs:111-136 | a raw handle value never comes to denote a different binding, even across clears |
| `PolicyWrap.WrappedRevisionGivesStaleHit` | crates/extension-engine/src/secrets.rs:185-193 | after 2^64 policy changes the revision returns and a hit can reply what no longer holds |
| `StaleReplies.StaleHitIsReachable` | crates/extension-engine/src/services.rs:740-815 | from a start, one resolver, one provider and 2^64 policy changes reach such a stale reply |
| `Registration.RunRegistration` | crates/extension-engine/src/context.rs:160-232 | read off the calls alone: the buffers list, in call order, exactly the contributions, definitions, providers and consumers, with all their fields, of the calls that are the first about their subject; the first failing callback aborts |
| `Registration.BufferedReads` | crates/extension-engine/src/context.rs:160-249 | the reference run of the calls is such a listing, whatever the components call and however often |
| `Registration.ValidateDefinitions` | crates/extension-engine/src/engine.rs:516-564 | accepted if and only if the declarations agree with the scope and leave platform contracts alone; otherwise the first offending definition is named, with what is wrong with it |
| `Registration.FittingStaysCoordinated` | crates/extension-engine/src/engine.rs:516-564 | registration keeps all definitions of a scope coherent |
| `Engine.ExtensionEngine.Register` | crates/extension-engine/src/engine.rs:718-850 | the exact new state on success, with endpoints read off the register calls; the engine unchanged on every refusal, and the refusal determined by the first check that fails |
| `Engine.ExtensionEngine.PlanActivation` | crates/extension-engine/src/engine.rs:2092-2157 | the plan of the engine's current view |
| `Engine.ExtensionEngine.Start` | crates/extension-engine/src/engine.rs:1032-1219 | success means that every start callback ran, in order, and succeeded, and gives exactly the started state; otherwise the first failing callback is named, the stops of it and of all before it ran in reverse, the failed ones are listed, and contributions, effects, targets and routing are as they were |
| `Engine.ExtensionEngine.Stop` | crates/extension-engine/src/engine.rs:1244-1249 | refused with the sorted dependents while there are any, otherwise a full stop whatever the callbacks answer; every stop callback ran, in reverse, and exactly the failed ones are reported |
| `Engine.ExtensionEngine.StopInner` | crates/extension-engine/src/engine.rs:1295-1367 | every stop callback runs, last component first, and exactly the failed ones are reported; the exact stopped state: contributions, effects and targets of the instance go, nothing else changes |
| `Engine.ExtensionEngine.Unregister` | crates/extension-engine/src/engine.rs:1388-1435 | the exact new state per outcome: an instance stays registered exactly when one of the stop callbacks that ran failed; contribution ownership survives if and only if nobody re-registered an id |
| `EngineModel.RemovalKeepsContributionsIff` | crates/extension-engine/src/engine.rs:1403-1410 | removing an instance keeps contribution ownership exactly when no live instance re-registered one of its ids |
| `ContributionReuse.ReuseLosesOwnership` | crates/extension-engine/src/engine.rs:1403-1410 | a run of successful engine calls after which unregistering one instance takes a live instance's contribution |
| `EngineModel.StopKeepsContributions` | crates/extension-engine/src/engine.rs:1349-1352 | stopping keeps active contributions the disjoint union over instances that are not stopped |
| `EngineModel.StartKeepsContributions` | crates/extension-engine/src/engine.rs:1052-1070 | a restart that meets no conflict re-owns exactly its contributions |
| `EngineModel.StopKeepsSound` | crates/extension-engine/src/engine.rs:1321-1357 | stopping any set of instances keeps the engine sound: router mirrored, effects and targets owned by active instances, edges pointing back |
| `EngineModel.StartKeepsSound` | crates/extension-engine/src/engine.rs:1175-1217 | activation with arbitrary own effects keeps the engine sound |
| `EngineModel.RemovalKeepsSound` | crates/extension-engine/src/engine.rs:1388-1435 | removing an inactive instance nobody depends on keeps the engine sound |
| `EngineModel.JoinKeepsSound` | crates/extension-engine/src/engine.rs:797-848 | a fitting registration keeps the engine sound, its dependency edges leading to earlier instances |
| `Engine.ExtensionEngine.QuarantineInstance` | crates/extension-engine/src/engine.rs:1251-1257 | exactly the instances reachable through active dependents stop, each dependent before its provider, all others untouched; the callbacks that ran are their stops, instance by instance |
| `Engine.ExtensionEngine.QuarantineRecursive` | crates/extension-engine/src/engine.rs:1259-1293 | the recursion terminates and sweeps its subtree once, given what was visited before |
| `Quarantine.SweepIsReachable` | crates/extension-engine/src/engine.rs:1259-1293 | a completed sweep is the reachable set, both directions |
| `Engine.ExtensionEngine.PollRuntime` | crates/extension-engine/src/engine.rs:1547-1613 | every component of an active instance gets its turn in principal order unless an earlier failure reached its instance; each reported outcome is that callback's own, a failure is followed by the stops of its sweep, exactly the instances that failures reach are stopped, and no failure ends the pump |
| `Engine.ExtensionEngine.GrantRequestedSecretRead` | crates/extension-engine/src/engine.rs:898-939 | granted if and only if the manifest of the registered component requests it; otherwise the missing instance, the missing component or the missing request is named |
| `EngineModel.ReadablePathIsRequested` | crates/extension-engine/src/engine.rs:898-939 | every readable path is covered by a request in the component's own manifest |
| `EngineModel.UnregisteredHoldsNothing` | crates/extension-engine/src/engine.rs:1411-1432 | no grant, permission, effect or target survives into a reused instance id |
| `Engine.ExtensionEngine.GrantRequestedRuntimePermission` | crates/extension-engine/src/engine.rs:971-1005 | granted if and only if the manifest requests it, and refused for the same three reasons |
| `Engine.ExtensionEngine.RegisterExecutionTargetHost` | crates/extension-engine/src/engine.rs:402-423 | published if and only if the owner is an active component and the target is valid and free |
| `Engine.ExtensionEngine.SetPreferredProviderPolicy` | crates/extension-engine/src/engine.rs:1457-1469 | engine and router change together |
| `Engine.ExtensionEngine.SetPreferredProvider` | crates/extension-engine/src/engine.rs:1478-1495 | checks registration and scope before storing the preference |
| `Engine.ExtensionEngine.ClearPreferredProvider` | crates/extension-engine/src/engine.rs:1503-1515 | removes the preference from engine and router alike |
| `Engine.ExtensionEngine.ClearPreferredProviderPolicies` | crates/extension-engine/src/engine.rs:1521-1533 | clearing contract by contract in the router removes the whole scope |
| `Engine.ExtensionEngine.DefinePlatformContract` | crates/extension-engine/src/engine.rs:621-667 | reservation conflict, definition conflict, or both tables updated |
| `Engine.ExtensionEngine.ClearPlatformContracts` | crates/extension-engine/src/engine.rs:611-619 | removes the scope's reservations from engine and router |
| `Engine.ExtensionEngine.CompositionSnapshotFor` | crates/extension-engine/src/engine.rs:2165-2169 | the snapshot among active instances of the scope |
| `Engine.ExtensionEngine.CallService` | crates/extension-engine/src/engine.rs:2070-2077 | the routed provider is uncached resolution of the engine's own router tables |
| `EngineRouting.CallsFollowComposition` | crates/extension-engine/src/services.rs:832-920 | an active consumer is routed to a provider if and only if the composition snapshot binds it to exactly that one and the contract is a service |
| `EngineRouting.InactiveCallersAreRefused` | crates/extension-engine/src/services.rs:854-889 | a consumer that is not active is never routed |
| `ArtifactLoader.TryLoad` | crates/extension-engine/src/artifact_loader.rs:192-290 | deferred with no side effect if and only if a required target has no host; otherwise registered with the dependencies on its hosts, or refused without effect for an invalid manifest, the first component in manifest order that has a host and does not load, or the engine's own reason |
| `ArtifactLoader.ListsFollowManifest` | crates/extension-engine/src/artifact_loader.rs:203-257 | missing targets, dependencies and registrations list, in manifest order, exactly the required components without a host, the hosted ones and the resolved ones |
| `ArtifactLoader.Preflight` | crates/extension-engine/src/artifact_loader.rs:203-220 | the missing required targets in manifest order, and the resolved hosts |
| `ArtifactLoader.LoadedIsBuiltOnActive` | crates/extension-engine/src/artifact_loader.rs:261-277 | whatever is registered was built on instances active at that moment |
| `Bootstrap.LoadOne` | crates/host/src/runtime.rs:2718-2757 | one load attempt: the instance joins from its artifact, in its scope, with exactly the approved permissions and nothing else changed, or a wait that changes nothing; a failure has its cause: the artifact is not in the store, does not load, or a profile approval is refused |
| `Bootstrap.WaitingIsNoCause` | crates/host/src/runtime.rs:2745-2757 | an activation that only waits for an execution target never causes a failure |
| `Bootstrap.GrantApproved` | crates/host/src/runtime.rs:2732-2741 | the components of the instance end up with exactly the permissions the profile approves for them in the scope |
| `Bootstrap.LoadRound` | crates/host/src/runtime.rs:2713-2758 | a round loads or defers every pending activation once; loaded ones are built from their artifacts with the approved permissions, the rest report exactly the missing targets, and a failure is caused by one of the pending activations |
| `Bootstrap.Expand` | crates/host/src/runtime.rs:2985-3029 | the bootstrap set grows by exactly the registered providers and definition owner of the unresolved contract in the full topology |
| `Bootstrap.StartPass` | crates/host/src/runtime.rs:2769-2800 | one pass: a start, a widening, or every eligible instance refused with a reason that widens nothing; a failure is a start callback that failed, as the trace shows |
| `Bootstrap.StartBootstrap` | crates/host/src/runtime.rs:2765-2805 | the inner loop terminates, and ends with every eligible instance stuck |
| `HostRuntime.Run` | crates/host/src/runtime.rs:2708-2842 | the outer loop terminates; success registers and starts every activation once, each from its artifact with the approved permissions; a stall is a genuine fixed point; every other failure has its cause in the engine at that moment |
| `HostRuntime.BatchError` | crates/host/src/runtime.rs:3031-3043 | a batch error is reported exactly when some instance is blocked |
| `HostRuntime.FinalStarts` | crates/host/src/runtime.rs:2828-2841 | every remaining instance is started; a planning refusal can only come from the batch plan itself, before anything started, and any other failure is that of a start callback that ran |
| `HostRuntime.CleanupInstances` | crates/host/src/runtime.rs:2937-2983 | nothing of the composition stays registered; the stop callbacks that ran and failed are reported, all of them and nothing else, never a provider in use |
| `HostRuntime.ActivateComposition` | crates/host/src/runtime.rs:2673-2861 | success registers every enabled activation exactly once from its artifact with exactly the approved permissions, starts it, and prefers the chosen providers; a refusal has its cause: unsupported content, an artifact that is missing or does not load, a refused approval, a failing start, a genuine stall or a refused final plan; failure restores the engine but for the scope's preferences and the registration counter |
| `HostRuntime.EnabledInOrder` | crates/host/src/runtime.rs:2686-2691 | the composition consists of the enabled activations, one per enabled position, in profile order |
| `HostRuntime.RestoreChoices` | crates/host/src/runtime.rs:2700-2706 | the scope ends up preferring exactly the chosen providers, a later choice replacing an earlier one |
| `HostRuntime.ValidateScope` | crates/host/src/profile.rs:225-241 | accepted if and only if every record names the scope; otherwise reports the first other scope, list by list |
| `BootstrapModel.UnstartedHasNoDependents` | crates/host/src/runtime.rs:2945-2953 | nothing was built on an instance that never started |
| `BootstrapModel.LastStartedHasNoDependents` | crates/host/src/runtime.rs:2955-2967 | nothing left was built on the instance that started last |
| `BootstrapModel.NothingLeft` | crates/host/src/runtime.rs:2845-2855 | with every added instance gone the engine is the earlier one, preferences and counter aside |
| `Profile.Validate` | crates/host/src/profile.rs:261-365 | accepts exactly the profiles with unique selections, grants and keys, valid values, and owners within quota, and otherwise reports what the first failing check finds |
| `Profile.CompositionProfile.SetPreference` | crates/host/src/profile.rs:381-441 | the incremental accounting accepts exactly the changes after which the whole list validates |
| `Profile.Recount` | crates/host/src/profile.rs:390-417 | incremental count and bytes equal counting the changed list again, for every owner |
| `Profile.CompositionProfile.GetPreference` | crates/host/src/profile.rs:367-379 | the value of the one record with that key |
| `Profile.CompositionProfile.DeletePreference` | crates/host/src/profile.rs:443-453 | exactly the record of the key goes; the profile stays valid |
| `Profile.CompositionProfile.SetPreferredProvider` | crates/host/src/profile.rs:455-464 | the contract's selection is exactly the new one; the profile stays valid |
| `Profile.CompositionProfile.ClearPreferredProvider` | crates/host/src/profile.rs:466-474 | exactly the contract's selection goes |
| `Profile.CompositionProfile.GrantRuntimePermission` | crates/host/src/profile.rs:476-480 | adds the approval once |
| `Profile.CompositionProfile.RevokeRuntimePermission` | crates/host/src/profile.rs:482-494 | removes exactly the approval |
| `Profile.CompositionProfile.Upsert` | crates/host/src/profile.rs:589-612 | replaces the subject's activation in its scope or appends one, keeping its place, enabled state and marker |
| `Profile.CompositionProfile.SetEnabled` | crates/host/src/profile.rs:614-622 | changes the first activation of the subject only |
| `Profile.CompositionProfile.RemoveActivation` | crates/host/src/profile.rs:624-643 | removes one activation with exactly its instance's policy records; the profile stays valid |
| `Materialization.MaterializeMatching` | crates/host/src/profile.rs:504-581 | the loop with its instance map computes the materialized profile |
| `Materialization.ActivationsAreCopied` | crates/host/src/profile.rs:509-527 | one copy per included activation, in order, with its subject, content, artifact and enabled state, the new instance id and scope, and no world-default marker |
| `Materialization.PolicyIsCopied` | crates/host/src/profile.rs:529-572 | the copied selections, approvals and preferences list, in order, those of included instances with contract, component, permission, key and value kept, and nothing else |
| `Materialization.MaterializedIsClosed` | crates/host/src/profile.rs:529-572 | one scope, and no policy record without its activation |
| `Materialization.PolicyComesAlong` | crates/host/src/profile.rs:529-572 | an instance is renamed if and only if it was included, and then its selections, approvals and preferences all come along under the new name |
| `Materialization.MaterializedIsValid` | crates/host/src/profile.rs:504-581 | a valid single-scope profile materializes into a valid profile |
| `Materialization.RenamingIsConsistentIff` | crates/host/src/profile.rs:509-527 | activations and policy records are renamed alike if and only if no included activation repeats an instance id |
| `Materialization.MaterializedIsValidIff` | crates/host/src/profile.rs:504-581 | a valid profile of any number of scopes materializes into a valid one if and only if, scopes dropped, its included selections, approvals and preference keys stay unique and its owners within quota |
| `Materialization.SeveralScopesMayCollide` | crates/host/src/profile.rs:529-543 | a valid profile of two scopes whose copy is not valid |
| `Materialization.RepeatedInstanceIsValid` | crates/host/src/profile.rs:261-365 | validation lets one instance id appear in two activations of one scope |
| `DeferredOperations.OperationControl.Submit` | crates/host/src/runtime.rs:360-401 | accepted, evicting at most the oldest terminal status; exhausted exactly when 256 operations are queued or drained, never with one batch out; the queue, byte count and tables after each outcome |
| `DeferredOperations.OperationControl.DrainPending` | crates/host/src/runtime.rs:421-428 | the whole queue moves to the drained operations and its bytes are given back |
| `DeferredOperations.OperationControl.RecordOutcome` | crates/host/src/runtime.rs:430-447 | a drained operation becomes completed and nothing is evicted |
| `DeferredOperations.OperationControl.Inspect` | crates/host/src/runtime.rs:403-419 | a status is visible to its owner only |
| `DeferredOperations.StatusesCount` | crates/host/src/runtime.rs:347-352 | the table holds exactly the queued, drained and completed ids |
| `DeferredOperations.Pump` | crates/host/src/runtime.rs:2444-2480 | every drained operation is recorded while requests keep arriving, or the batch is lost when the home cannot be opened |
| `DeferredOperations.LostBatchesAccumulate` | crates/host/src/runtime.rs:2448-2452 | a lost batch keeps its statuses: draining never relieves exhaustion |
| `UserResources.UserResourceControl.Import` | crates/host/src/runtime.rs:238-290 | stored if and only if well formed and within both quotas; the running total is the sum of lengths |
| `UserResources.UserResourceControl.Read` | crates/host/src/runtime.rs:292-308 | only the exact reference reads the bytes, within the caller's limit |
| `UserResources.UserResourceControl.Release` | crates/host/src/runtime.rs:310-326 | gives exactly the resource's bytes back |
| `UserResources.TotalWithout` | crates/host/src/runtime.rs:322-324 | the total does not depend on the order of counting |
| `WorldSessions.WorldSessionControl.Request` | crates/host/src/runtime.rs:140-153 | the latest request wins; at most 64 worlds wait |
| `WorldSessions.WorldSessionControl.DeleteInactive` | crates/host/src/runtime.rs:155-169 | deletes exactly a stored world that is neither active nor pending |
| `WorldSessions.DeferredAccessFollowsRequests` | crates/host/src/runtime.rs:171-181 | between transitions deferred access is accepted if and only if the last request since the drain asks for the world or, without one, the host runs it |
| `WorldSessions.WorldSessionControl.RecordOutcome` | crates/host/src/runtime.rs:191-217 | records activity and diagnostics and leaves newer requests alone |
| `WorldSessions.PumpWorldSessions` | crates/host/src/runtime.rs:2380-2412 | drained requests take effect if and only if the home opens; then exactly the requested transitions that did not fail happened, the control shows exactly the running worlds, which all still exist, failed activations and deactivations stay reported with their error, and requests and deletions arrive in between |
| `WorldSessions.RunsAgree` | crates/host/src/runtime.rs:2364-2412 | in every interleaving, control and host agree outside the one transition under way, and at most 64 requests wait |
| `WorldSessions.PendingIsLastRequest` | crates/host/src/runtime.rs:183-217 | only the last accepted request per world since the previous drain is pending, and completing transitions never drop it |
| `WorldSessions.RequestsWaitUntilTaken` | crates/host/src/runtime.rs:2380-2412 | a request stops waiting if and only if it begins, is replaced, or is drained while the home cannot be opened |
| `WorldSessions.RequestsCanBeLost` | crates/host/src/runtime.rs:2384-2391 | a run in which a deactivation is lost that way, with nothing pending and no error shown |
| `WorldSessions.DeletionIsSafeIff` | crates/host/src/runtime.rs:155-169 | a deletion keeps all running worlds in storage if and only if it does not fall between the opening of the world's storage and the recording of its activation |
| `WorldSessions.RunningWorldsExist` | crates/host/src/runtime.rs:890-899 | in runs without such a deletion no running world is ever deleted |
| `WorldSessions.CallbackDeletionsAreSafe` | crates/host/src/runtime.rs:1813-1921 | whatever components delete from callbacks the host runs, also inside the world's own activation, every running world exists |
| `WorldSessions.DeletedByOwnCallback` | crates/host/src/runtime.rs:1818-1838 | a world deleted by a callback of its own activation does not come up, and the failure is shown |
| `WorldSessions.DeletedWhileActivating` | crates/host/src/runtime.rs:1804-1814 | a run in which another thread deletes a world after its storage was opened, and it then runs |
| `ArchivePaths.CanonicalNameIff` | crates/artifacts/src/path.rs:64-78 | an accepted name is canonical unless it is a directory whose raw name ends in two slashes |
| `ArchivePaths.PlainMeansNoDots` | crates/artifacts/src/path.rs:107-125 | the segment checks hold if and only if no stretch between slashes is empty, `.` or `..` |
| `ArchivePaths.AcceptedNamesStayInside` | crates/artifacts/src/path.rs:64-125 | an accepted name is relative, free of backslashes and colons, and has no `..` between slashes or at either end |
| `ArchivePaths.OrdinaryNamesAreAccepted` | crates/artifacts/src/path.rs:64-125 | every name of non-empty letter and digit segments is accepted as it is |
| `ArchivePaths.AncestorIn` | crates/artifacts/src/path.rs:140-142 | finds an ancestor among the files if there is one |
| `ArchiveEntries.ValidateEntries` | crates/artifacts/src/archive.rs:205-299 | accepts exactly the acceptable lists and describes every file |
| `ArchiveEntries.AcceptanceIsUnordered` | crates/artifacts/src/archive.rs:225-296 | acceptance does not depend on entry order |
| `ArchiveEntries.AcceptableIsTree` | crates/artifacts/src/archive.rs:288-292 | no file path equals or is an ancestor of another entry |
| `ArchiveEntries.DirectoriesMayAlias` | crates/artifacts/src/path.rs:64-78 | `a/` and `a//` are two directories of one acceptable archive |
| `ArchiveEntries.OpenArchive` | crates/artifacts/src/archive.rs:179-203 | archive size, entries, manifest limit and declared content decide opening |
| `ArchiveEntries.ValidateMemoryEntries` | crates/artifacts/src/pack.rs:268-332 | accepts exactly the lists whose archive the opening validator accepts |

## Left out

- RouteProtocol.RouteCacheIsTransparent: stated for runs with fewer than 2^64 policy changes, because beyond that it is false (`PolicyWrap.WrappedRevisionGivesStaleHit`).
- RouteProtocol.HandlesResolveSafely: stated for runs with fewer than 2^64 policy changes, for the same reason.
- Engine.ExtensionEngine.CallService: assumes that the engine itself made fewer than 2^64 policy changes; the message exchange with the provider is not modelled.
- Engine.ExtensionEngine.Register: the dependencies passed in must name registered providers, as the loader guarantees for this crate-private method.
- ServiceRuntime.ServiceRuntime.DefinePlatformContract: for contracts that no instance of the scope defines, as the engine checks before the call.
- ServiceRuntime.ServiceRuntime.RegisterInstance: for declarations that fit the scope and name existing components, as the engine checks before the call.
- Engine.ExtensionEngine.QuarantineInstance: for active instances, the only ones it is called for.
- ServiceRuntime.ServiceRuntime.ResolveProvider: the retry loop is part of `RouteProtocol`; the sequential method needs none.
- DeferredOperations.OperationControl.RecordOutcome: for ids that were drained, the only ones the pumps record.
- DeferredOperations.Pump: a projection pump opens no home and never loses a batch; it is the case `homeOpens`.
- WorldSessions.PumpWorldSessions: which transitions fail, and with which error, is an input, and activating a world that is gone fails; what a transition does to the engine is in `HostRuntime`. World creation is left to the run theorems.
- Materialization.SeveralScopesMayCollide: an input that the repository's callers reject beforehand, since they check the scope of a profile before materializing it (`crates/host/src/lib.rs`, lines 992-1020); it shows that the condition of `MaterializedIsValidIff` can fail.
- ArchiveEntries.ValidateEntries: whether an entry can be decoded, and its encoding, type, compression and encryption, are one given flag; only acceptance is modelled, not which error is reported.
- Portable-UI calls are taken to succeed; their runtime, UI actions and world focus are not part of this model.
- Event and signal dispatch, platform service callers and provider invocation, message size limits, diagnostics and wake-up delays.
- World storage, the effect outbox, world commands and the world runtime itself.
- Services that a component calls from its own callbacks; such calls change no state modelled here except the route cache.
- The text form of runtime effect ids: an id is its owner and sequence number.
- The adjacency sorting and deduplication in the planner, which the edge set makes irrelevant, and its debug assertions.
- The component that owns a contribution, world schemas and UI declarations of a registration.
- Host objects behind execution targets; a target is its owner.
- Lock poisoning, the operating system keyring, file and ZIP input and output, digests, TOML and JSON.
- Legacy profile schemas and their markers beyond what materialization copies.
