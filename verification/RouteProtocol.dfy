/** The optimistic revision protocol of the service router, step by step.

    Resolvers hold the router's state lock while they resolve, but the grant policy has its own lock:
    a policy change may land between two of a resolver's grant queries, and the revision counter is read
    without any lock. A policy change is two steps, first the grants and then the revision, and no grant
    query can run between them. */
module RouteProtocol {
  import opened Identifiers
  import opened SecretPolicy
  import opened Composition
  import opened Scopes
  import opened Gathering
  import opened ServiceTables
  import opened ProviderHandles
  import opened ServiceRuntime
  import opened QueryPrograms

  datatype Kind = Route | List

  /** A resolver between reading the revision and taking the lock. */
  datatype Request = Request(kind: Kind, key: RouteKey, seen: nat)

  /** The resolver that holds the lock: the epoch its revision was read in, and its remaining queries. */
  datatype Holder = Holder(thread: nat, kind: Kind, key: RouteKey, epoch: nat, program: Program<BindingResult>)

  datatype Reply =
    | RouteReply(tables: Tables, epoch: nat, key: RouteKey, result: RouteResult)
    | ListReply(tables: Tables, epoch: nat, key: RouteKey, handles: seq<nat>)
    | ListRefusal(tables: Tables, epoch: nat, finished: nat, key: RouteKey, error: ServiceError)
    | HandlesExhausted(tables: Tables, epoch: nat, key: RouteKey)

  datatype Sys = Sys(
    tables: Tables,
    topologyRevision: nat,
    cache: map<RouteKey, CachedRoute>,
    cacheEpoch: map<RouteKey, nat>,
    handles: HandleTable,
    handleEpoch: nat,
    issued: map<nat, HandleKey>,
    history: seq<Grants>,
    writing: Option<Grants>,
    waiting: map<nat, Request>,
    holder: Option<Holder>,
    replies: seq<Reply>)

  /** Epochs number the policy changes; the counter only shows them modulo 2^64. */
  function Revision(epoch: nat): nat { epoch % U64_SIZE }

  function Epoch(s: Sys): nat
    requires |s.history| > 0
  {
    |s.history| - 1
  }

  ghost predicate Start(s: Sys) {
    && SoundTables(s.tables) && |s.history| == 1
    && s.cache == map[] && s.cacheEpoch == map[] && s.handles == HandleTable(0, 0, map[], map[]) && s.handleEpoch == 0
    && s.issued == map[] && s.writing.None? && s.waiting == map[] && s.holder.None? && s.replies == []
  }

  datatype Step =
    | ChangeTopology(next: Tables)
    | WriteGrants(grants: Grants)
    | BumpRevision
    | Begin(thread: nat, kind: Kind, key: RouteKey)
    | ReadHit(thread: nat)
    | LockHit(thread: nat)
    | Lock(thread: nat, program: Program<BindingResult>)
    | Query
    | Retry
    | FinishRoute
    | FinishList

  ghost predicate Hit(s: Sys, key: RouteKey, revision: nat) {
    key in s.cache && s.cache[key].topologyRevision == s.topologyRevision && s.cache[key].policyRevision == revision
  }

  /** A program that computes the caller's binding under every policy, as the resolver's does, and refuses for
      structural reasons only when there are some, whatever it is answered. */
  ghost predicate Computes(program: Program<BindingResult>, tables: Tables, key: RouteKey) {
    (forall grants :: Answer(program, grants) == BindingOf(tables, grants, key)) && Certain(program, tables, key)
  }

  /** `list_providers` answers these without looking at the revision again. */
  predicate Refuses(result: BindingResult) {
    result.Unbound? || !result.resolution.Multiple? || |result.providers| > MAX_PROVIDERS_PER_CONTRACT
  }

  ghost predicate Enabled(s: Sys, step: Step)
    requires |s.history| > 0
  {
    match step
    case ChangeTopology(next) => s.holder.None? && SoundTables(next)
    case WriteGrants(grants) => s.writing.None? && grants != s.history[Epoch(s)]
    case BumpRevision => s.writing.Some?
    case Begin(thread, _, _) => thread !in s.waiting && (s.holder.Some? ==> s.holder.value.thread != thread)
    case ReadHit(thread) =>
      s.holder.None? && thread in s.waiting && s.waiting[thread].kind.Route?
      && Hit(s, s.waiting[thread].key, Revision(s.waiting[thread].seen))
    case LockHit(thread) =>
      s.holder.None? && thread in s.waiting && s.waiting[thread].kind.Route?
      && Hit(s, s.waiting[thread].key, Revision(Epoch(s)))
    case Lock(thread, program) =>
      s.holder.None? && thread in s.waiting && Computes(program, s.tables, s.waiting[thread].key)
      && (s.waiting[thread].kind.Route? ==> !Hit(s, s.waiting[thread].key, Revision(Epoch(s))))
    case Query => s.holder.Some? && s.holder.value.program.Ask? && s.writing.None?
    case Retry =>
      s.holder.Some? && s.holder.value.program.Done? && Revision(Epoch(s)) != Revision(s.holder.value.epoch)
      && (s.holder.value.kind.List? ==> !Refuses(s.holder.value.program.value))
    case FinishRoute =>
      s.holder.Some? && s.holder.value.kind.Route? && s.holder.value.program.Done?
      && Revision(Epoch(s)) == Revision(s.holder.value.epoch)
    case FinishList =>
      s.holder.Some? && s.holder.value.kind.List? && s.holder.value.program.Done?
      && (Refuses(s.holder.value.program.value) || Revision(Epoch(s)) == Revision(s.holder.value.epoch))
  }

  function RefusalOf(result: BindingResult): ServiceError
    requires Refuses(result)
  {
    if result.Unbound? then result.error
    else if !result.resolution.Multiple? then UnsupportedResolution else ResponseTooLarge
  }

  ghost function Apply(s: Sys, step: Step): Sys
    requires |s.history| > 0 && Enabled(s, step)
  {
    match step
    case ChangeTopology(next) =>
      s.(tables := next, topologyRevision := NextRevision(s.topologyRevision),
         cache := map[], cacheEpoch := map[], handles := Forget(s.handles))
    case WriteGrants(grants) => s.(writing := Some(grants))
    case BumpRevision => s.(history := s.history + [s.writing.value], writing := None)
    case Begin(thread, kind, key) => s.(waiting := s.waiting[thread := Request(kind, key, Epoch(s))])
    case ReadHit(thread) =>
      var q := s.waiting[thread];
      s.(waiting := s.waiting - {thread}, replies := s.replies + [RouteReply(s.tables, q.seen, q.key, s.cache[q.key].result)])
    case LockHit(thread) =>
      var q := s.waiting[thread];
      s.(waiting := s.waiting - {thread}, replies := s.replies + [RouteReply(s.tables, Epoch(s), q.key, s.cache[q.key].result)])
    case Lock(thread, program) =>
      var q := s.waiting[thread];
      // Routing reads the revision again under the lock; listing keeps the one it read before.
      var epoch := if q.kind.Route? then Epoch(s) else q.seen;
      var synced := if q.kind.Route? then s.handles else SyncPolicy(s.handles, Revision(q.seen));
      s.(waiting := s.waiting - {thread}, holder := Some(Holder(thread, q.kind, q.key, epoch, program)),
         handles := synced, handleEpoch := if synced == s.handles then s.handleEpoch else q.seen)
    case Query =>
      s.(holder := Some(s.holder.value.(program := Proceed(s.holder.value.program, s.history[Epoch(s)]))))
    // The resolver drops the lock and begins again.
    case Retry => s.(holder := None)
    case FinishRoute =>
      var h := s.holder.value;
      var result := RouteFrom(h.program.value);
      s.(holder := None,
         cache := s.cache[h.key := CachedRoute(s.topologyRevision, Revision(h.epoch), result)],
         cacheEpoch := s.cacheEpoch[h.key := h.epoch],
         replies := s.replies + [RouteReply(s.tables, h.epoch, h.key, result)])
    case FinishList =>
      var h := s.holder.value;
      if Refuses(h.program.value) then
        s.(holder := None, replies := s.replies + [ListRefusal(s.tables, h.epoch, Epoch(s), h.key, RefusalOf(h.program.value))])
      else
        var (table, values) := IssueAll(s.handles, h.key, h.program.value.providers);
        s.(holder := None, handles := table, issued := s.issued + table.byHandle,
           replies := s.replies + [if values.Some? then ListReply(s.tables, h.epoch, h.key, values.value)
                                   else HandlesExhausted(s.tables, h.epoch, h.key)])
  }

  // ---------- the invariant ----------

  /** The handle's provider is in its caller's `Multiple` binding. */
  ghost predicate Justified(tables: Tables, grants: Grants, k: HandleKey) {
    var binding := BindingOf(tables, grants, RouteKey(k.caller, k.contract, k.allowInactive));
    binding.Bound? && binding.resolution.Multiple? && k.provider in binding.providers
  }

  ghost predicate CacheTrue(s: Sys) {
    forall key | key in s.cache ::
      && key in s.cacheEpoch && s.cacheEpoch[key] < |s.history|
      && s.cache[key].policyRevision == Revision(s.cacheEpoch[key])
      && s.cache[key].result == RouteOf(s.tables, s.history[s.cacheEpoch[key]], key)
  }

  ghost predicate HandlesTrue(s: Sys) {
    && Consistent(s.handles) && s.handleEpoch < |s.history| && s.handles.policyRevision == Revision(s.handleEpoch)
    && (forall n | n in s.handles.byHandle :: Justified(s.tables, s.history[s.handleEpoch], s.handles.byHandle[n]))
    && (forall n | n in s.handles.byHandle :: n in s.issued && s.issued[n] == s.handles.byHandle[n])
    && (forall n | n in s.issued :: 0 < n <= s.handles.next)
  }

  /** As long as no policy change has happened since its revision was read, the lock holder's remaining
      queries lead to the reference answer. */
  ghost predicate HolderTrue(s: Sys)
    requires |s.history| > 0
  {
    s.holder.Some? ==>
      var h := s.holder.value;
      && h.epoch < |s.history|
      && (h.epoch == Epoch(s) ==> Answer(h.program, s.history[h.epoch]) == BindingOf(s.tables, s.history[h.epoch], h.key))
      && (h.kind.List? ==> s.handleEpoch == h.epoch)
      && Certain(h.program, s.tables, h.key)
  }

  /** Uncached resolution refuses a listing like this. */
  ghost predicate RefusedBy(tables: Tables, grants: Grants, key: RouteKey, error: ServiceError) {
    Refuses(BindingOf(tables, grants, key)) && RefusalOf(BindingOf(tables, grants, key)) == error
  }

  ghost predicate ReplyTrue(s: Sys, reply: Reply) {
    match reply
    case RouteReply(tables, epoch, key, result) => epoch < |s.history| && result == RouteOf(tables, s.history[epoch], key)
    case ListReply(tables, epoch, key, handles) =>
      && epoch < |s.history|
      && BindingOf(tables, s.history[epoch], key).Bound? && BindingOf(tables, s.history[epoch], key).resolution.Multiple?
      && |handles| == |BindingOf(tables, s.history[epoch], key).providers|
      && forall i | 0 <= i < |handles| ::
           handles[i] in s.issued && s.issued[handles[i]] == KeyFor(key, BindingOf(tables, s.history[epoch], key).providers[i])
    case ListRefusal(tables, epoch, finished, key, error) =>
      && epoch <= finished < |s.history|
      && (epoch == finished || Structural(error) ==> RefusedBy(tables, s.history[epoch], key, error))
    case HandlesExhausted(tables, epoch, key) =>
      && epoch < |s.history| && !Refuses(BindingOf(tables, s.history[epoch], key))
  }

  ghost predicate Inv(s: Sys) {
    && |s.history| > 0 && SoundTables(s.tables)
    && (forall t | t in s.waiting :: s.waiting[t].seen < |s.history|)
    && (|s.history| <= U64_SIZE ==>
          CacheTrue(s) && HandlesTrue(s) && HolderTrue(s) && forall r | r in s.replies :: ReplyTrue(s, r))
  }

  /** Below 2^64 policy changes, equal revisions mean equal epochs. */
  lemma RevisionIdentifiesEpoch(a: nat, b: nat)
    requires a < U64_SIZE && b < U64_SIZE && Revision(a) == Revision(b)
    ensures a == b
  {
  }

  lemma StartSatisfies(s: Sys)
    requires Start(s)
    ensures Inv(s)
  {
  }

  /** Replies stay true while the history grows and more handles are issued. */
  lemma ReplyStays(s: Sys, t: Sys, reply: Reply)
    requires |s.history| <= |t.history| && forall e | 0 <= e < |s.history| :: t.history[e] == s.history[e]
    requires forall n | n in s.issued :: n in t.issued && t.issued[n] == s.issued[n]
    requires ReplyTrue(s, reply)
    ensures ReplyTrue(t, reply)
  {
    hide BindingOf;
  }

  lemma RepliesStay(s: Sys, t: Sys)
    requires |s.history| <= |t.history| && forall e | 0 <= e < |s.history| :: t.history[e] == s.history[e]
    requires forall n | n in s.issued :: n in t.issued && t.issued[n] == s.issued[n]
    requires forall r | r in s.replies :: ReplyTrue(s, r)
    ensures forall r | r in s.replies :: ReplyTrue(t, r)
  {
    forall r | r in s.replies ensures ReplyTrue(t, r) {
      ReplyStays(s, t, r);
    }
  }

  lemma TopologyStep(s: Sys, next: Tables)
    requires Inv(s) && Enabled(s, ChangeTopology(next))
    ensures Inv(Apply(s, ChangeTopology(next)))
  {
    hide SoundTables, BindingOf;
    if |s.history| <= U64_SIZE {
      RepliesStay(s, Apply(s, ChangeTopology(next)));
    }
  }

  lemma PolicyStep(s: Sys, step: Step)
    requires Inv(s) && Enabled(s, step) && (step.WriteGrants? || step.BumpRevision?)
    ensures Inv(Apply(s, step))
  {
    hide SoundTables, BindingOf, Justified, Answer;
    var t := Apply(s, step);
    if |t.history| <= U64_SIZE {
      RepliesStay(s, t);
    }
  }

  lemma BeginStep(s: Sys, step: Step)
    requires Inv(s) && Enabled(s, step) && (step.Begin? || step.Retry?)
    ensures Inv(Apply(s, step))
  {
    hide SoundTables, BindingOf, Justified, Answer;
    if |s.history| <= U64_SIZE {
      RepliesStay(s, Apply(s, step));
    }
  }

  /** A cache hit replies what fresh resolution of the current tables would, under the grants of the
      epoch in which the resolver read the revision. */
  lemma HitIsFresh(s: Sys, key: RouteKey, epoch: nat)
    requires Inv(s) && |s.history| <= U64_SIZE && epoch < |s.history| && Hit(s, key, Revision(epoch))
    ensures s.cache[key].result == RouteOf(s.tables, s.history[epoch], key)
  {
    hide RouteOf, HandlesTrue, HolderTrue, SoundTables, ReplyTrue;
    RevisionIdentifiesEpoch(s.cacheEpoch[key], epoch);
  }

  lemma HitStep(s: Sys, step: Step)
    requires Inv(s) && Enabled(s, step) && (step.ReadHit? || step.LockHit?)
    ensures Inv(Apply(s, step))
  {
    hide SoundTables, RouteOf, Justified, Answer;
    if |s.history| <= U64_SIZE {
      var q := s.waiting[step.thread];
      HitIsFresh(s, q.key, if step.ReadHit? then q.seen else Epoch(s));
      RepliesStay(s, Apply(s, step));
    }
  }

  lemma LockStep(s: Sys, thread: nat, program: Program<BindingResult>)
    requires Inv(s) && Enabled(s, Lock(thread, program))
    ensures Inv(Apply(s, Lock(thread, program)))
  {
    hide SoundTables, BindingOf, Justified;
    var t := Apply(s, Lock(thread, program));
    if |s.history| <= U64_SIZE {
      var q := s.waiting[thread];
      ForgettingKeepsConsistent(s.handles, Revision(q.seen));
      if s.handles.policyRevision == Revision(q.seen) {
        RevisionIdentifiesEpoch(s.handleEpoch, q.seen);
      }
      assert Answer(program, s.history[t.holder.value.epoch]) == BindingOf(s.tables, s.history[t.holder.value.epoch], q.key);
      RepliesStay(s, t);
    }
  }

  lemma QueryStep(s: Sys)
    requires Inv(s) && Enabled(s, Query)
    ensures Inv(Apply(s, Query))
  {
    hide SoundTables, BindingOf, Justified, HasReadGrant;
    if |s.history| <= U64_SIZE {
      RepliesStay(s, Apply(s, Query));
    }
  }

  lemma FinishRouteStep(s: Sys)
    requires Inv(s) && Enabled(s, FinishRoute)
    ensures Inv(Apply(s, FinishRoute))
  {
    hide SoundTables, BindingOf, Justified;
    var t := Apply(s, FinishRoute);
    if |s.history| <= U64_SIZE {
      RevisionIdentifiesEpoch(s.holder.value.epoch, Epoch(s));
      RepliesStay(s, t);
      assert forall r | r in t.replies :: r in s.replies || r == t.replies[|s.replies|];
    }
  }

  lemma FinishListStep(s: Sys)
    requires Inv(s) && Enabled(s, FinishList)
    ensures Inv(Apply(s, FinishList))
    ensures |s.history| <= U64_SIZE ==>
      forall n | n in s.issued :: n in Apply(s, FinishList).issued && Apply(s, FinishList).issued[n] == s.issued[n]
  {
    hide SoundTables, BindingOf, IssueAll, HandlesTrue;
    var t := Apply(s, FinishList);
    if |s.history| <= U64_SIZE {
      FinishListFacts(s);
      RepliesStay(s, t);
      assert forall r | r in t.replies :: r in s.replies || r == t.replies[|s.replies|];
    }
  }

  lemma FinishListFacts(s: Sys)
    requires Inv(s) && Enabled(s, FinishList) && |s.history| <= U64_SIZE
    ensures var t := Apply(s, FinishList);
      && HandlesTrue(t) && (forall n | n in s.issued :: n in t.issued && t.issued[n] == s.issued[n])
      && ReplyTrue(t, t.replies[|s.replies|])
  {
    hide SoundTables, BindingOf, IssueAll, HandlesTrue, CacheTrue;
    var t, h := Apply(s, FinishList), s.holder.value;
    if !Refuses(h.program.value) {
      RevisionIdentifiesEpoch(h.epoch, Epoch(s));
      assert Consistent(s.handles) by { HandlesAreConsistent(s); }
      IssueAllNamesProviders(s.handles, h.key, h.program.value.providers);
      ListedHandlesTrue(s, t);
    } else {
      SameHandlesTrue(s, t);
    }
  }

  lemma HandlesAreConsistent(s: Sys)
    requires HandlesTrue(s)
    ensures Consistent(s.handles)
  {
  }

  lemma SameHandlesTrue(s: Sys, t: Sys)
    requires HandlesTrue(s)
    requires t.handles == s.handles && t.issued == s.issued && t.history == s.history && t.handleEpoch == s.handleEpoch && t.tables == s.tables
    ensures HandlesTrue(t)
  {
    hide Justified;
  }

  lemma ListedHandlesTrue(s: Sys, t: Sys)
    requires |s.history| > 0 && HandlesTrue(s) && s.holder.Some?
    requires var h := s.holder.value;
      && s.handleEpoch == h.epoch && h.program.Done? && !Refuses(h.program.value)
      && h.program.value == BindingOf(s.tables, s.history[h.epoch], h.key)
      && t.handles == IssueAll(s.handles, h.key, h.program.value.providers).0
      && t.issued == s.issued + t.handles.byHandle
      && t.tables == s.tables && t.history == s.history && t.handleEpoch == s.handleEpoch
    ensures HandlesTrue(t) && forall n | n in s.issued :: t.issued[n] == s.issued[n]
  {
    hide BindingOf, IssueAll;
    var h := s.holder.value;
    var providers := h.program.value.providers;
    IssueAllNamesProviders(s.handles, h.key, providers);
    forall n | n in t.handles.byHandle ensures Justified(s.tables, s.history[s.handleEpoch], t.handles.byHandle[n]) {
      if n !in s.handles.byHandle {
        var p :| p in providers && t.handles.byHandle[n] == KeyFor(h.key, p);
        assert RouteKey(h.key.caller, h.key.contract, h.key.allowInactive) == h.key;
      }
    }
  }

  lemma StepKeepsInv(s: Sys, step: Step)
    requires Inv(s) && Enabled(s, step)
    ensures Inv(Apply(s, step))
  {
    hide Inv, Enabled, Apply;
    match step {
      case ChangeTopology(next) => TopologyStep(s, next);
      case WriteGrants(_) => PolicyStep(s, step);
      case BumpRevision => PolicyStep(s, step);
      case Begin(_, _, _) => BeginStep(s, step);
      case ReadHit(_) => HitStep(s, step);
      case LockHit(_) => HitStep(s, step);
      case Lock(thread, program) => LockStep(s, thread, program);
      case Query => QueryStep(s);
      case Retry => BeginStep(s, step);
      case FinishRoute => FinishRouteStep(s);
      case FinishList => FinishListStep(s);
    }
  }

  // ---------- runs ----------

  ghost predicate Follows(s: Sys, t: Sys) {
    |s.history| > 0 && exists step :: Enabled(s, step) && t == Apply(s, step)
  }

  /** Any interleaving of topology changes, policy writes and resolvers. */
  ghost predicate Run(states: seq<Sys>) {
    |states| > 0 && Start(states[0]) && forall i | 0 <= i < |states| - 1 :: Follows(states[i], states[i + 1])
  }

  lemma {:induction false} RunsSatisfyInv(states: seq<Sys>, k: nat)
    requires Run(states) && k < |states|
    ensures Inv(states[k])
  {
    hide Inv, Start, Enabled, Apply;
    if k == 0 {
      StartSatisfies(states[0]);
    } else {
      RunsSatisfyInv(states, k - 1);
      assert Follows(states[k - 1], states[k]);
      var step :| Enabled(states[k - 1], step) && states[k] == Apply(states[k - 1], step);
      StepKeepsInv(states[k - 1], step);
    }
  }

  ghost predicate CachedUnder(s: Sys, key: RouteKey, epoch: nat) {
    && key in s.cache && epoch < |s.history| && s.cache[key].policyRevision == Revision(epoch)
    && s.cache[key].result == RouteOf(s.tables, s.history[epoch], key)
  }

  /** In every run with fewer than 2^64 policy changes: each cached route is what uncached resolution of
      the current tables gives under the grants of its recorded revision, and each routing reply ever
      given was so for the tables it was given against. */
  lemma RouteCacheIsTransparent(states: seq<Sys>, k: nat)
    requires Run(states) && k < |states| && |states[k].history| <= U64_SIZE
    ensures forall key | key in states[k].cache :: exists epoch :: CachedUnder(states[k], key, epoch)
    ensures forall r | r in states[k].replies && r.RouteReply? ::
      r.epoch < |states[k].history| && r.result == RouteOf(r.tables, states[k].history[r.epoch], r.key)
  {
    hide RouteOf, HandlesTrue, HolderTrue, SoundTables, Start;
    RunsSatisfyInv(states, k);
    var s := states[k];
    forall key | key in s.cache ensures exists epoch :: CachedUnder(s, key, epoch) {
      assert CachedUnder(s, key, s.cacheEpoch[key]);
    }
    forall r | r in s.replies && r.RouteReply? ensures r.epoch < |s.history| && r.result == RouteOf(r.tables, s.history[r.epoch], r.key) {
      assert ReplyTrue(s, r);
    }
  }

  /** `list_providers` refuses without looking at the revision again. In every run a refusal is what uncached
      resolution gives under the revision that was read, if no policy change came in between or if it is a
      structural one; `StaleReplies.RefusedUnderNoPolicy` shows that an `Unavailable` may otherwise be wrong. */
  lemma RefusalIsFreshUnlessPolicyMoved(states: seq<Sys>, k: nat)
    requires Run(states) && k < |states| && |states[k].history| <= U64_SIZE
    ensures forall r | r in states[k].replies && r.ListRefusal? ::
      && r.epoch <= r.finished < |states[k].history|
      && (r.epoch == r.finished || Structural(r.error) ==> RefusedBy(r.tables, states[k].history[r.epoch], r.key, r.error))
  {
    hide BindingOf, CacheTrue, HandlesTrue, HolderTrue, SoundTables, Start, RefusedBy;
    RunsSatisfyInv(states, k);
    forall r | r in states[k].replies && r.ListRefusal?
      ensures r.epoch <= r.finished < |states[k].history|
      ensures r.epoch == r.finished || Structural(r.error) ==> RefusedBy(r.tables, states[k].history[r.epoch], r.key, r.error)
    {
      assert ReplyTrue(states[k], r);
    }
  }

  /** A handle that passes the checks of `resolve_provider_handle` names a provider in its caller's
      `Multiple` binding for the current tables, under the policy in force when the revision was read. */
  lemma HandlesResolveSafely(states: seq<Sys>, k: nat, handle: nat, epoch: nat)
    requires Run(states) && k < |states| && |states[k].history| <= U64_SIZE
    requires var s := states[k];
      epoch < |s.history| && s.handles.policyRevision == Revision(epoch) && handle in s.handles.byHandle
    ensures var s := states[k];
      Justified(s.tables, s.history[epoch], s.handles.byHandle[handle])
      && handle in s.issued && s.issued[handle] == s.handles.byHandle[handle]
  {
    hide Justified, CacheTrue, HolderTrue, SoundTables, Start, ReplyTrue;
    RunsSatisfyInv(states, k);
    RevisionIdentifiesEpoch(states[k].handleEpoch, epoch);
  }

  /** A raw handle value never comes to denote a different binding, whatever is cleared in between. */
  lemma {:induction false} HandlesAreNeverReused(states: seq<Sys>, j: nat, k: nat, handle: nat)
    requires Run(states) && j <= k < |states| && |states[k].history| <= U64_SIZE
    requires handle in states[j].issued
    ensures handle in states[k].issued && states[k].issued[handle] == states[j].issued[handle]
  {
    hide Inv, Start, Follows;
    if j < k {
      assert Follows(states[k - 1], states[k]);
      RunsSatisfyInv(states, k - 1);
      StepKeepsIssued(states[k - 1], states[k]);
      HandlesAreNeverReused(states, j, k - 1, handle);
    }
  }

  lemma StepKeepsIssued(s: Sys, t: Sys)
    requires Inv(s) && Follows(s, t) && |t.history| <= U64_SIZE
    ensures |s.history| <= |t.history|
    ensures forall n | n in s.issued :: n in t.issued && t.issued[n] == s.issued[n]
  {
    hide Inv, Enabled, Apply;
    var step :| Enabled(s, step) && t == Apply(s, step);
    if step.FinishList? {
      FinishListStep(s);
      FinishListHistory(s);
    } else {
      OthersIssueNothing(s, step);
    }
  }

  lemma FinishListHistory(s: Sys)
    requires |s.history| > 0 && Enabled(s, FinishList)
    ensures Apply(s, FinishList).history == s.history
  {
    hide IssueAll, Refuses;
  }

  lemma OthersIssueNothing(s: Sys, step: Step)
    requires |s.history| > 0 && Enabled(s, step) && !step.FinishList?
    ensures Apply(s, step).issued == s.issued && |s.history| <= |Apply(s, step).history|
  {
    hide Computes, Hit, SoundTables, Refuses, SyncPolicy, Forget, Proceed;
  }

  /** The resolver's own query order is such a program, whatever order it gathered the endpoints in. */
  lemma ResolverProgramComputes(t: Tables, key: RouteKey, starting: Option<ComponentRef>, e: Endpoints, preferred: Preferences)
    requires SoundTables(t) && key.caller.instanceId in t.instances
    requires starting == if key.allowInactive then Some(key.caller) else None
    requires DistinctConsumers(e.consumers)
    requires var scope := t.instances[key.caller.instanceId].declared.scopeId;
      && preferred == PreferencesIn(t.preferred, scope)
      && Elements(e.definitions) == PlatformIn(t.platform, scope).Values + DefinitionsOf(Declared(t), scope, ActiveIn(t) + StartingSet(starting, ActiveIn(t)))
      && Elements(e.providers) == ProvidersOf(Declared(t), scope, ActiveIn(t))
      && Elements(e.consumers) == ConsumersOf(Declared(t), scope, ActiveIn(t)) + StartingConsumers(Declared(t), scope, starting, ActiveIn(t))
    ensures Computes(AskBinding(e, preferred, key), t, key)
  {
    GatheredIsCallerTopology(t, key, starting, e, preferred);
    hide WellFormed, BindingIn, AskBinding, DistinctConsumers, CallerTopology, Certain;
    forall grants ensures Answer(AskBinding(e, preferred, key), grants) == BindingOf(t, grants, key) {
      BindingAnswer(e, preferred, key, grants);
    }
    BindingIsCertain(e, preferred, t, key);
  }
}
