/** Concrete runs of the router in which the policy moves while a resolver is at work. */
module StaleReplies {
  import opened Identifiers
  import opened SecretPatterns
  import opened SecretPolicy
  import opened Composition
  import opened Scopes
  import opened Gathering
  import opened ServiceTables
  import opened ProviderHandles
  import opened ServiceRuntime
  import opened QueryPrograms
  import opened RouteProtocol
  import opened PolicyWrap

  const CONTRACT := ContractKey("store", 1)
  const CALLER := ComponentRef("app", "ui")
  const FIRST := ComponentRef("app", "a")
  const SECOND := ComponentRef("app", "b")
  const NEED := Exact("key")
  const KEY := RouteKey(CALLER, CONTRACT, false)

  // ---------- one instance that consumes and provides a service ----------

  function Offer(owner: ComponentRef): Provider {
    Provider(owner, CONTRACT, [NEED])
  }

  function Served(resolution: Resolution): Definition {
    Definition(CONTRACT, resolution, Service)
  }

  const DEMAND := Consumer(CALLER, CONTRACT, true, [])

  function Example(resolution: Resolution, providers: seq<Provider>): Tables {
    Tables(map["app" := RouterInstance("ext", Declarations("home", [OwnedDefinition(CALLER, Served(resolution))], providers, [DEMAND]),
                                       {"ui", "a", "b"}, true)], map[], map[])
  }

  function Listed(resolution: Resolution, providers: seq<Provider>): Endpoints {
    Endpoints([Served(resolution)], providers, [DEMAND])
  }

  lemma ExampleIsSound(resolution: Resolution, providers: seq<Provider>)
    requires DistinctProviders(providers) && forall p | p in providers :: p.owner.instanceId == "app"
    ensures SoundTables(Example(resolution, providers))
  {
  }

  lemma ExampleHolds(resolution: Resolution, providers: seq<Provider>)
    ensures var t := Example(resolution, providers);
      && ActiveIn(t) == {"app"}
      && DefinitionsOf(Declared(t), "home", {"app"}) == {Served(resolution)}
      && ProvidersOf(Declared(t), "home", {"app"}) == Elements(providers)
      && ConsumersOf(Declared(t), "home", {"app"}) == {DEMAND}
  {
    var t := Example(resolution, providers);
    assert Member(Declared(t), "home", {"app"}, "app");
    assert OwnedDefinition(CALLER, Served(resolution)) in Declared(t)["app"].definitions;
    assert DEMAND in Declared(t)["app"].consumers;
  }

  /** The resolver's own program for the example. */
  ghost function Resolver(resolution: Resolution, providers: seq<Provider>): Program<BindingResult> {
    AskBinding(Listed(resolution, providers), map[], KEY)
  }

  lemma ResolverComputes(resolution: Resolution, providers: seq<Provider>)
    requires DistinctProviders(providers) && forall p | p in providers :: p.owner.instanceId == "app"
    ensures Computes(Resolver(resolution, providers), Example(resolution, providers), KEY)
  {
    hide Computes, SoundTables, AskBinding, DefinitionsOf, ProvidersOf, ConsumersOf;
    var t, e := Example(resolution, providers), Listed(resolution, providers);
    ExampleIsSound(resolution, providers);
    ExampleHolds(resolution, providers);
    assert StartingSet(None, ActiveIn(t)) == {} && ActiveIn(t) + {} == ActiveIn(t);
    assert Elements(e.definitions) == {Served(resolution)} && Elements(e.consumers) == {DEMAND};
    assert StartingConsumers(Declared(t), "home", None, ActiveIn(t)) == {} by { NobodyStarts(t); }
    assert PlatformIn(t.platform, "home").Values == {};
    ResolverProgramComputes(t, KEY, None, e, map[]);
  }

  lemma NobodyStarts(t: Tables)
    ensures StartingConsumers(Declared(t), "home", None, ActiveIn(t)) == {}
  {
  }

  /** The binding when these providers are eligible. */
  ghost function BindingFor(resolution: Resolution, eligible: set<ComponentRef>): BindingResult {
    if eligible == {} then Unbound(Unavailable)
    else Bound(resolution, if resolution.Single? then [LeastRef(eligible)] else Listing(eligible))
  }

  /** What the example resolves to. */
  lemma ExampleBinding(resolution: Resolution, providers: seq<Provider>, grants: Grants)
    requires providers != [] && DistinctProviders(providers)
    requires forall p | p in providers :: p.owner.instanceId == "app" && p.contract == CONTRACT
    ensures BindingOf(Example(resolution, providers), grants, KEY) == BindingFor(resolution, EligibleOwners(Elements(providers), CONTRACT, grants))
  {
    hide DefinitionsOf, ProvidersOf, ConsumersOf, EligibleOwners;
    var t := Example(resolution, providers);
    ExampleHolds(resolution, providers);
    assert ActiveIn(t) + {} == ActiveIn(t);
    var topology := CallerTopology(t, KEY);
    assert Consumes(topology, KEY, DEMAND);
    assert Served(resolution) in topology.definitions;
    assert forall c | Consumes(topology, KEY, c) :: c == DEMAND;
    assert providers[0] in topology.providers;
  }

  // ---------- the resolver's queries in the example ----------

  lemma ThenAfterOne<A, B>(owner: ComponentRef, pattern: Pattern, x: A, y: A, f: A -> Program<B>)
    ensures Then(Ask(owner, pattern, Done(x), Done(y)), f) == Ask(owner, pattern, f(x), f(y))
  {
    assert Then(Done(x), f) == f(x) && Then(Done(y), f) == f(y);
  }

  lemma AsksOnce(owner: ComponentRef)
    ensures AskEligible(Offer(owner)) == Ask(owner, NEED, Done(true), Done(false))
  {
    assert [NEED][1..] == [];
    assert AskRequirements(owner, []) == Done(true);
    assert AskRequirements(owner, [NEED]) == Ask(owner, NEED, AskRequirements(owner, [NEED][1..]), Done(false));
  }

  /** With one provider the resolver asks for its grant and nothing else. */
  lemma RetainsOne(owner: ComponentRef)
    ensures AskRetain(CONTRACT, [Offer(owner)]) == Ask(owner, NEED, Done({owner}), Done({}))
  {
    AsksOnce(owner);
    assert [Offer(owner)][1..] == [];
    assert {} + {owner} == {owner};
    var keep := (ok: bool) => Then(AskRetain(CONTRACT, [Offer(owner)][1..]), (r: set<ComponentRef>) => Done(if ok then r + {owner} else r));
    assert keep(true) == Done({owner}) && keep(false) == Done({});
    ThenAfterOne(owner, NEED, true, false, keep);
  }

  /** With two, the second is asked for after the first. */
  lemma RetainsTwo()
    ensures AskRetain(CONTRACT, [Offer(FIRST), Offer(SECOND)])
         == Ask(FIRST, NEED, Ask(SECOND, NEED, Done({SECOND} + {FIRST}), Done({} + {FIRST})), Ask(SECOND, NEED, Done({SECOND}), Done({})))
  {
    AsksOnce(FIRST);
    RetainsOne(SECOND);
    var both := [Offer(FIRST), Offer(SECOND)];
    assert both[1..] == [Offer(SECOND)];
    var keep := (ok: bool) => Then(AskRetain(CONTRACT, both[1..]), (r: set<ComponentRef>) => Done(if ok then r + {FIRST} else r));
    ThenAfterOne(SECOND, NEED, {SECOND}, {}, (r: set<ComponentRef>) => Done(if true then r + {FIRST} else r));
    ThenAfterOne(SECOND, NEED, {SECOND}, {}, (r: set<ComponentRef>) => Done(if false then r + {FIRST} else r));
    assert keep(true) == Ask(SECOND, NEED, Done({SECOND} + {FIRST}), Done({} + {FIRST}));
    assert keep(false) == Ask(SECOND, NEED, Done({SECOND}), Done({}));
    ThenAfterOne(FIRST, NEED, true, false, keep);
  }

  /** The queries with a binding for each way of answering them. */
  ghost function Bindings(resolution: Resolution, p: Program<set<ComponentRef>>): Program<BindingResult> {
    match p
    case Done(eligible) => Done(BindingFor(resolution, eligible))
    case Ask(owner, pattern, yes, no) => Ask(owner, pattern, Bindings(resolution, yes), Bindings(resolution, no))
  }

  lemma {:induction false} ThenBinds(resolution: Resolution, p: Program<set<ComponentRef>>, select: set<ComponentRef> -> Program<Selection>,
                                     keep: Selection -> Program<Option<Selection>>, bind: Option<Selection> -> Program<BindingResult>)
    requires forall eligible :: select(eligible) == Done(SelectEligible(resolution, eligible))
    requires forall outcome :: keep(outcome) == Done(Some(outcome))
    requires forall r :: bind(r) == Done(if r.Some? && r.value.Selected? then Bound(resolution, r.value.providers) else Unbound(Unavailable))
    ensures Then(Then(Then(p, select), keep), bind) == Bindings(resolution, p)
  {
    match p {
      case Done(eligible) =>
        var chosen := SelectEligible(resolution, eligible);
        assert Then(p, select) == Done(chosen);
        assert Then(Done(chosen), keep) == Done(Some(chosen));
        assert Then(Done(Some(chosen)), bind) == bind(Some(chosen));
      case Ask(_, _, yes, no) =>
        ThenBinds(resolution, yes, select, keep, bind);
        ThenBinds(resolution, no, select, keep, bind);
    }
  }

  lemma ResolverAsks(resolution: Resolution, providers: seq<Provider>)
    requires providers != [] && forall p | p in providers :: p.contract == CONTRACT
    ensures Resolver(resolution, providers) == Bindings(resolution, AskRetain(CONTRACT, providers))
  {
    hide AskRetain, BindingFor, SelectEligible;
    var e, d := Listed(resolution, providers), Served(resolution);
    OutcomeAsks(resolution, providers);
    assert d in Elements(e.definitions) && DefinitionOf(Elements(e.definitions), CONTRACT) == d;
    assert DEMAND in e.consumers;
    assert e.consumers[1..] == [] && e.consumers[0] == DEMAND;
    var keep := (outcome: Selection) =>
      Then(AskAll(e, map[], e.consumers[1..], KEY), (rest: Option<Selection>) =>
        Done(if e.consumers[0].owner == KEY.caller && e.consumers[0].contract == KEY.contract then Some(outcome) else rest));
    var bind := (outcome: Option<Selection>) =>
      Done(if outcome.Some? && outcome.value.Selected? then Bound(d.resolution, outcome.value.providers) else Unbound(Unavailable));
    assert AskAll(e, map[], e.consumers, KEY) == Then(AskOutcome(e, map[], DEMAND), keep);
    assert AskBinding(e, map[], KEY) == Then(AskAll(e, map[], e.consumers, KEY), bind);
    forall outcome ensures keep(outcome) == Done(Some(outcome)) {
      assert AskAll(e, map[], e.consumers[1..], KEY) == Done(None);
    }
    ThenBinds(resolution, AskRetain(CONTRACT, providers), (eligible: set<ComponentRef>) => Done(SelectEligible(resolution, eligible)), keep, bind);
  }

  lemma OutcomeAsks(resolution: Resolution, providers: seq<Provider>)
    requires providers != [] && forall p | p in providers :: p.contract == CONTRACT
    ensures AskOutcome(Listed(resolution, providers), map[], DEMAND)
         == Then(AskRetain(CONTRACT, providers), (eligible: set<ComponentRef>) => Done(SelectEligible(resolution, eligible)))
  {
    hide AskRetain, SelectEligible;
    var e := Listed(resolution, providers);
    assert Served(resolution) in Elements(e.definitions);
    assert DefinitionOf(Elements(e.definitions), CONTRACT) == Served(resolution);
    assert AskRequirements(CALLER, []) == Done(true);
    assert providers[0] in providers;
  }

  lemma EligibleInExample(providers: seq<Provider>, grants: Grants, owner: ComponentRef)
    requires forall p | p in providers :: p == Offer(p.owner)
    ensures owner in EligibleOwners(Elements(providers), CONTRACT, grants) <==> Offer(owner) in providers && HasReadGrant(grants, owner, NEED)
  {
    hide HasReadGrant;
    assert ProviderEligible(grants, Offer(owner)) <==> HasReadGrant(grants, owner, NEED) by {
      assert [NEED][0] == NEED;
    }
  }

  lemma GrantedIsHeld(grants: Grants, owner: ComponentRef)
    ensures owner in grants && grants[owner] == [NEED] ==> HasReadGrant(grants, owner, NEED)
    ensures owner !in grants ==> !HasReadGrant(grants, owner, NEED)
  {
    assert AllowsPattern([NEED][0], NEED);
  }

  // ---------- runs ----------

  ghost predicate Reachable(s: Sys) {
    exists states :: Run(states) && states[|states| - 1] == s
  }

  lemma StartIsReachable(s: Sys)
    requires Start(s)
    ensures Reachable(s)
  {
    assert Run([s]);
  }

  lemma Comes(s: Sys, step: Step, t: Sys)
    requires Reachable(s) && |s.history| > 0 && Enabled(s, step) && t == Apply(s, step)
    ensures Reachable(t)
  {
    hide Enabled, Apply, Start;
    var states :| Run(states) && states[|states| - 1] == s;
    assert Follows(s, t);
    ExtendsRun(states, t);
  }

  lemma ExtendsRun(states: seq<Sys>, t: Sys)
    requires Run(states) && Follows(states[|states| - 1], t)
    ensures Run(states + [t]) && (states + [t])[|states|] == t
  {
    hide Follows, Start;
    var longer := states + [t];
    forall i | 0 <= i < |longer| - 1 ensures Follows(longer[i], longer[i + 1]) {
      if i < |states| - 1 {
        assert longer[i] == states[i] && longer[i + 1] == states[i + 1];
      }
    }
  }

  lemma {:induction false} ReachesOn(s: Sys, t: Sys, n: nat)
    requires Reachable(s) && ReachesIn(s, t, n)
    ensures Reachable(t)
    decreases n
  {
    hide Follows, Start;
    if n > 0 {
      var u :| ReachesIn(s, u, n - 1) && Follows(u, t);
      ReachesOn(s, u, n - 1);
      var states :| Run(states) && states[|states| - 1] == u;
      ExtendsRun(states, t);
    }
  }

  /** The router at rest over the example, with one policy so far. */
  ghost function AtRest(tables: Tables, history: seq<Grants>): Sys {
    Sys(tables, 0, map[], map[], HandleTable(0, 0, map[], map[]), 0, map[], history, None, map[], None, [])
  }

  ghost function Held(tables: Tables, history: seq<Grants>, kind: Kind, program: Program<BindingResult>): Sys {
    AtRest(tables, history).(holder := Some(Holder(0, kind, KEY, 0, program)))
  }

  /** A resolver reads the revision, takes the lock and gathers the scope. */
  lemma ResolverTakesLock(tables: Tables, grants: Grants, kind: Kind, program: Program<BindingResult>)
    requires SoundTables(tables) && Computes(program, tables, KEY)
    ensures Reachable(Held(tables, [grants], kind, program))
  {
    hide SoundTables, Computes, Reachable;
    var rest := AtRest(tables, [grants]);
    StartIsReachable(rest);
    var waiting := rest.(waiting := map[0 := Request(kind, KEY, 0)]);
    Comes(rest, Begin(0, kind, KEY), waiting);
    assert waiting.waiting - {0} == map[];
    Comes(waiting, Lock(0, program), Held(tables, [grants], kind, program));
  }

  /** One query under the policy in force. */
  lemma ResolverAsksOnce(tables: Tables, history: seq<Grants>, kind: Kind, program: Program<BindingResult>)
    requires |history| > 0 && program.Ask? && Reachable(Held(tables, history, kind, program))
    ensures Reachable(Held(tables, history, kind, Proceed(program, history[|history| - 1])))
  {
    hide Reachable, Proceed;
    Comes(Held(tables, history, kind, program), Query, Held(tables, history, kind, Proceed(program, history[|history| - 1])));
  }

  /** The policy changes while the resolver holds the lock. */
  lemma PolicyMoves(tables: Tables, history: seq<Grants>, kind: Kind, program: Program<BindingResult>, next: Grants)
    requires |history| > 0 && next != history[|history| - 1] && Reachable(Held(tables, history, kind, program))
    ensures Reachable(Held(tables, history + [next], kind, program))
  {
    hide Reachable;
    var s := Held(tables, history, kind, program);
    var written := s.(writing := Some(next));
    Comes(s, WriteGrants(next), written);
    Comes(written, BumpRevision, Held(tables, history + [next], kind, program));
  }

  // ---------- a refusal that no policy of the run gives ----------

  /** Two providers take turns in being granted, so that one of them always is; the resolver asks each of them at
      the wrong moment, finds none, and refuses, since a refused listing does not look at the revision again. */
  lemma RefusedUnderNoPolicy()
    ensures exists s: Sys, r ::
      && Reachable(s) && r in s.replies && r.ListRefusal? && r.error == Unavailable
      && forall e | 0 <= e < |s.history| :: !RefusedBy(r.tables, s.history[e], r.key, r.error)
  {
    hide Reachable, RefusedBy;
    var t := Example(Multiple, [Offer(FIRST), Offer(SECOND)]);
    var second, both, first := map[SECOND := [NEED]], map[FIRST := [NEED], SECOND := [NEED]], map[FIRST := [NEED]];
    RefusalRun(second, both, first);
    OneIsAlwaysEligible(second, SECOND);
    OneIsAlwaysEligible(both, FIRST);
    OneIsAlwaysEligible(first, FIRST);
    var s := AtRest(t, [second, both, first]).(replies := [ListRefusal(t, 0, 2, KEY, Unavailable)]);
    assert s.replies[0] in s.replies;
    forall e | 0 <= e < |s.history| ensures !RefusedBy(t, s.history[e], KEY, Unavailable) {
    }
  }

  lemma RefusalRun(a: Grants, b: Grants, c: Grants)
    requires FIRST !in a && SECOND !in c && FIRST in b && SECOND in b
    ensures var t := Example(Multiple, [Offer(FIRST), Offer(SECOND)]);
      Reachable(AtRest(t, [a, b, c]).(replies := [ListRefusal(t, 0, 2, KEY, Unavailable)]))
  {
    hide Reachable, Computes, SoundTables, Held, AtRest, Proceed, Example;
    var providers := [Offer(FIRST), Offer(SECOND)];
    var t := Example(Multiple, providers);
    ExampleIsSound(Multiple, providers);
    ResolverComputes(Multiple, providers);
    var program := TwoQueries();
    ResolverTakesLock(t, a, List, program);
    ResolverAsksOnce(t, [a], List, program);
    RefusedProceeds(program, a);
    PolicyMoves(t, [a], List, program.no, b);
    assert [a] + [b] == [a, b];
    PolicyMoves(t, [a, b], List, program.no, c);
    assert [a, b] + [c] == [a, b, c];
    ResolverAsksOnce(t, [a, b, c], List, program.no);
    RefusedProceeds(program.no, c);
    RefusalIsGiven(t, [a, b, c], program.no.no);
  }

  /** The resolver's program with both providers: after two denials it knows of none. */
  lemma TwoQueries() returns (program: Program<BindingResult>)
    ensures program == Resolver(Multiple, [Offer(FIRST), Offer(SECOND)])
    ensures program.Ask? && program.owner == FIRST && program.pattern == NEED
    ensures program.no.Ask? && program.no.owner == SECOND && program.no.pattern == NEED
    ensures program.no.no == Done(Unbound(Unavailable))
  {
    hide AskRetain, AskBinding;
    var providers := [Offer(FIRST), Offer(SECOND)];
    ResolverAsks(Multiple, providers);
    RetainsTwo();
    program := Resolver(Multiple, providers);
    var retain := AskRetain(CONTRACT, providers);
    assert program.no == Bindings(Multiple, retain.no);
    assert program.no.no == Bindings(Multiple, retain.no.no) == Done(BindingFor(Multiple, {}));
  }

  lemma RefusedProceeds(program: Program<BindingResult>, grants: Grants)
    requires program.Ask? && program.pattern == NEED && program.owner !in grants
    ensures Proceed(program, grants) == program.no
  {
    GrantedIsHeld(grants, program.owner);
  }

  lemma RefusalIsGiven(tables: Tables, history: seq<Grants>, program: Program<BindingResult>)
    requires |history| == 3 && program == Done(Unbound(Unavailable)) && Reachable(Held(tables, history, List, program))
    ensures Reachable(AtRest(tables, history).(replies := [ListRefusal(tables, 0, 2, KEY, Unavailable)]))
  {
    hide Reachable;
    Comes(Held(tables, history, List, program), FinishList, AtRest(tables, history).(replies := [ListRefusal(tables, 0, 2, KEY, Unavailable)]));
  }

  lemma OneIsAlwaysEligible(grants: Grants, owner: ComponentRef)
    requires owner == FIRST || owner == SECOND
    requires owner in grants && grants[owner] == [NEED]
    ensures !RefusedBy(Example(Multiple, [Offer(FIRST), Offer(SECOND)]), grants, KEY, Unavailable)
  {
    hide HasReadGrant, EligibleOwners;
    var providers := [Offer(FIRST), Offer(SECOND)];
    GrantedIsHeld(grants, owner);
    assert Offer(owner) in providers;
    EligibleInExample(providers, grants, owner);
    ExampleBinding(Multiple, providers, grants);
  }

  // ---------- a stale hit ----------

  /** A run with 2^64 policy changes in which a hit replies what no longer holds. */
  lemma StaleHitIsReachable()
    ensures exists s: Sys :: Reachable(s) && LastReplyIsStale(s)
  {
    hide Reachable, Computes, SoundTables, RouteOf, LastReplyIsStale;
    var providers := [Offer(FIRST)];
    var t, program := Example(Single, providers), Resolver(Single, providers);
    var granted, other, none: Grants := map[FIRST := [NEED]], map[CALLER := [NEED]], map[];
    ExampleIsSound(Single, providers);
    ResolverComputes(Single, providers);
    ResolverAsks(Single, providers);
    RetainsOne(FIRST);
    ResolverTakesLock(t, granted, Route, program);
    GrantedIsHeld(granted, FIRST);
    ResolverAsksOnce(t, [granted], Route, program);
    var s := RouteIsCached(t, granted, program.yes);
    RouteInExample(none);
    assert FIRST in granted && CALLER !in granted;
    WrappedRevisionGivesStaleHit(s, 0, KEY, other, none);
    var u, n :| ReachesIn(s, u, n) && LastReplyIsStale(u);
    ReachesOn(s, u, n);
  }

  lemma RouteIsCached(tables: Tables, grants: Grants, program: Program<BindingResult>) returns (s: Sys)
    requires program == Done(Bound(Single, [FIRST])) && Reachable(Held(tables, [grants], Route, program))
    ensures Reachable(s) && s.tables == tables && s.history == [grants] && s.writing.None? && s.holder.None? && s.waiting == map[]
    ensures Hit(s, KEY, Revision(Epoch(s))) && s.cache[KEY].result == Routed(FIRST)
  {
    hide Reachable;
    var held := Held(tables, [grants], Route, program);
    s := Apply(held, FinishRoute);
    Comes(held, FinishRoute, s);
  }

  lemma RouteInExample(grants: Grants)
    requires FIRST !in grants
    ensures RouteOf(Example(Single, [Offer(FIRST)]), grants, KEY) == NoRoute(Unavailable)
  {
    hide HasReadGrant, EligibleOwners;
    var providers := [Offer(FIRST)];
    GrantedIsHeld(grants, FIRST);
    ExampleBinding(Single, providers, grants);
    forall owner ensures owner !in EligibleOwners(Elements(providers), CONTRACT, grants) {
      EligibleInExample(providers, grants, owner);
    }
    assert EligibleOwners(Elements(providers), CONTRACT, grants) == {};
  }
}
