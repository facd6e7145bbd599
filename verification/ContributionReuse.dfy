/** A run of engine calls after which unregistering one instance takes a contribution id from another. */
module ContributionReuse {
  import opened Identifiers
  import opened Strings
  import opened Composition
  import opened DependencyGraph
  import opened Activation
  import opened Scopes
  import opened Planning
  import opened ServiceTables
  import opened ExecutionTargets
  import opened Registration
  import opened EngineModel
  import opened EngineSteps
  import opened Engine

  const MANIFEST := Manifest("ext", [ComponentDescriptor("main", WASM_COMPONENT_TARGET, true, [], {})])
  const REGISTRATIONS := [ComponentRegistration("main", [Contribute("panel")], true)]

  function Instance(state: State): Extension {
    Extension(MANIFEST, state, ["main"], ["panel"], Declarations("home", [], [], []), [])
  }

  ghost const EMPTY := Model(map[], {}, map[], map[], map[], map[], map[], map[], Tables(map[], map[], map[]), map[], 0)

  ghost function One(state: State, contributions: Contributions): Model {
    EMPTY.(extensions := map["a" := Instance(state)], contributions := contributions,
           router := Tables(map["a" := RouterEntry(Instance(state))], map[], map[]), order := map["a" := 0], nextOrder := 1)
  }

  /** `a` is stopped and `b` has registered its contribution id again. */
  ghost const REUSED := JoinedModel(One(Stopped, {}), "b", Instance(Registered))

  lemma EmptyIsSound()
    ensures Sound(EMPTY) && ContributionsOwned(EMPTY.extensions, EMPTY.contributions)
  {
  }

  const DECLARED := Buffers(["panel"], [], [], [])

  lemma PanelIsDeclared(id: Id)
    ensures Buffered(id, "home", REGISTRATIONS, {}) == DECLARED
  {
    var nothing := Buffers([], [], [], []);
    var owner, calls := ComponentRef(id, "main"), [Contribute("panel")];
    assert REGISTRATIONS[..0] == [] && calls[..0] == [];
    assert Buffered(id, "home", [], {}) == nothing;
    assert BufferedCalls("home", owner, [], {}, nothing) == nothing;
    assert BufferedCalls("home", owner, calls, {}, nothing) == Recorded(owner, calls[0], nothing);
    assert [] + ["panel"] == ["panel"];
  }

  lemma TargetIsValid(namespace: string, name: string, kind: string, major: string)
    requires TargetSegment(namespace) && TargetSegment(name) && TargetSegment(kind) && CanonicalMajor(major)
    requires |namespace| + |name| + |kind| <= 126
    ensures ValidTarget(namespace + ['.'] + name + ['.'] + kind + ['@'] + major)
  {
    hide Split, CanonicalMajor;
    var id := namespace + ['.'] + name + ['.'] + kind;
    assert '@' !in id && '.' !in namespace && '.' !in name && '.' !in kind;
    assert '@' !in major by { DigitsOnly(major); }
    SplitAppend(id, '@', major);
    SplitWithout(id, '@');
    SplitAppend(namespace + ['.'] + name, '.', kind);
    SplitAppend(namespace, '.', name);
    SplitWithout(namespace, '.');
    assert (id + ['@'] + major)[..|id|] == id;
  }

  lemma DigitsOnly(major: string)
    requires CanonicalMajor(major)
    ensures '@' !in major
  {
  }

  lemma BuiltInTargetIsValid()
    ensures ValidTarget(WASM_COMPONENT_TARGET)
  {
    hide ValidTarget, TargetSegment, CanonicalMajor;
    BuiltInSegments();
    OneIsCanonical();
    TargetIsValid("rintawa", "runtime", "wasm-component", "1");
    BuiltInPrefix();
    BuiltInName();
    BuiltInVersion();
  }

  lemma BuiltInSegments()
    ensures TargetSegment("rintawa") && TargetSegment("runtime") && TargetSegment("wasm-component")
  {
    assert |"rintawa"| == |"runtime"| == 7 && |"wasm-component"| == 14;
  }

  lemma BuiltInPrefix()
    ensures "rintawa" + ['.'] + "runtime" == "rintawa.runtime"
  {
  }

  lemma BuiltInName()
    ensures "rintawa.runtime" + ['.'] + "wasm-component" == "rintawa.runtime.wasm-component"
  {
  }

  lemma BuiltInVersion()
    ensures "rintawa.runtime.wasm-component" + ['@'] + "1" == WASM_COMPONENT_TARGET
  {
  }

  lemma OneIsCanonical()
    ensures CanonicalMajor("1")
  {
    assert "1"[..0] == "";
    assert Number("") == 0;
  }

  lemma ManifestFits()
    ensures ValidManifest(MANIFEST) && WellPatterned(MANIFEST)
  {
    hide ValidTarget;
    BuiltInTargetIsValid();
  }

  /** With no contribution claimed in it, the panel's id can be registered by any new instance. */
  lemma PanelRegisters(m: Model, id: Id)
    requires Sound(m) && id !in m.extensions && m.contributions == {} && m.platform == map[]
    requires forall x | x in m.extensions :: m.extensions[x].declared.definitions == []
    ensures Registers(m, id, "home", MANIFEST, REGISTRATIONS, [], Done, JoinedModel(m, id, Instance(Registered)))
    ensures Sound(JoinedModel(m, id, Instance(Registered)))
  {
    hide Sound, MayJoin, Joins, JoinedModel, Buffered, ValidManifest, WellPatterned;
    var e := Instance(Registered);
    PanelIsDeclared(id);
    ManifestFits();
    assert IdsOf(REGISTRATIONS) == ["main"];
    FittingJoins(m, id, "home", MANIFEST, REGISTRATIONS, [], DECLARED, e);
    JoinKeepsSound(m, id, e);
  }

  const PANEL: Contributions := {("home", "panel")}

  lemma States()
    ensures JoinedModel(EMPTY, "a", Instance(Registered)) == One(Registered, PANEL)
    ensures StartedModel(One(Registered, PANEL), "a", map[], map[]) == One(Active, PANEL)
    ensures StoppedAll(One(Active, PANEL), {"a"}) == One(Stopped, {})
  {
    assert KeysOf(Instance(Registered)) == PANEL;
    StatesOfOne(Registered, Active);
    StatesOfOne(Active, Stopped);
    assert KeysOfAll(map["a" := Instance(Active)], {"a"}) == PANEL;
  }

  lemma StatesOfOne(from: State, to: State)
    ensures WithStates(map["a" := Instance(from)], {"a"}, to) == map["a" := Instance(to)]
    ensures from.Active? != to.Active? ==>
      WithActivity(One(from, {}).router, {"a"}, to.Active?) == One(to, {}).router
  {
  }

  lemma NothingToPlan()
    ensures IsPlan(ViewOf(One(Registered, PANEL)), ["a"], Planned(["a"]))
  {
    hide Describes, IsSnapshot, One, GatheredOne;
    var v := ViewOf(One(Registered, PANEL));
    var none := Snapshot([], []);
    var among := v.active + Elements(["a"]);
    OneScope(v);
    NothingToResolve(v, among);
    var home: seq<Id>, nothing: set<Dependency> := ["home"], {};
    assert home[..|home| - 1] == [] && home[|home| - 1] == "home" && nothing + nothing == {};
    assert Gathered(v, among, home[..|home| - 1], none, nothing);
    assert Snapshot(none.bindings + none.bindings, none.unresolved + none.unresolved) == none;
    assert Gathered(v, among, ["home"], none, {});
    assert Elements<Dependency>([]) == {};
    OnlyOrder(none);
  }

  lemma OneScope(v: View)
    requires v == ViewOf(One(Registered, PANEL))
    ensures Known(v, ["a"]) && ScopesOf(v, ["a"]) == ["home"]
  {
    assert ["a"][..0] == [] && ["a"][0] == "a" && ScopesOf(v, []) == [];
  }

  lemma NothingToResolve(v: View, among: set<Id>)
    requires v == ViewOf(One(Registered, PANEL))
    ensures GatheredOne(v, among, "home", Snapshot([], []), {})
  {
    assert ScopeTopology(v, "home", among).consumers == {};
  }

  lemma OnlyOrder(none: Snapshot)
    requires none == Snapshot([], [])
    ensures Describes(none, ["a"], [], Planned(["a"]))
  {
    hide AllPairs;
    var edges := EdgesOf(AllPairs(none, []), ["a"]);
    assert edges == {};
    forall other | Topological(1, edges, other) ensures other == [0] {
    }
    assert Topological(1, edges, [0]);
    assert LeastTopological(1, edges, [0]) && IndicesOf(["a"], [0], ["a"]);
  }

  /** The panel's first owner starts and stops. */
  lemma FirstOwnerStops()
    ensures Starts(One(Registered, PANEL), "a", Done, One(Active, PANEL)) && Stops(One(Active, PANEL), "a", true, Done, One(Stopped, {}))
  {
    hide IsPlan, StoppedAll, StartedModel;
    NothingToPlan();
    States();
    assert OnlyOwn(One(Registered, PANEL), "a", map[], map[]);
    assert DependentsOf(One(Active, PANEL).extensions, "a") == {};
  }

  /** The stopped state is sound, and the contribution is free in it. */
  lemma StoppedStateFits()
    requires Sound(One(Registered, PANEL))
    ensures Sound(One(Stopped, {}))
  {
    hide Sound, StoppedAll, StartedModel;
    States();
    assert OnlyOwn(One(Registered, PANEL), "a", map[], map[]);
    StartKeepsSound(One(Registered, PANEL), "a", map[], map[]);
    StopKeepsSound(One(Active, PANEL), {"a"});
  }

  lemma ReusedIsOwned()
    ensures ContributionsOwned(REUSED.extensions, REUSED.contributions) && ReregisteredElsewhere(REUSED, "a")
    ensures Unregisters(REUSED, "a", Done, RemovedModel(REUSED, "a"))
  {
    assert ContributionsOwned(One(Stopped, {}).extensions, {});
    JoinKeepsContributions(One(Stopped, {}), "b", Instance(Registered));
    assert HoldsKey(REUSED.extensions, "b", ("home", "panel"));
    assert ("home", "panel") in KeysOf(REUSED.extensions["a"]);
    assert DependentsOf(REUSED.extensions, "a") == {};
  }

  /** A run of successful engine calls at whose end the live instance `b` no longer owns its contribution: `a`
      registers the panel, starts and stops, `b` registers the panel again, and `a` is unregistered. */
  lemma ReuseLosesOwnership()
    ensures Sound(EMPTY) && ContributionsOwned(EMPTY.extensions, EMPTY.contributions)
    ensures Registers(EMPTY, "a", "home", MANIFEST, REGISTRATIONS, [], Done, One(Registered, PANEL))
    ensures Starts(One(Registered, PANEL), "a", Done, One(Active, PANEL)) && Stops(One(Active, PANEL), "a", true, Done, One(Stopped, {}))
    ensures Registers(One(Stopped, {}), "b", "home", MANIFEST, REGISTRATIONS, [], Done, REUSED)
    ensures Sound(REUSED) && ContributionsOwned(REUSED.extensions, REUSED.contributions)
    ensures "a" in REUSED.extensions && Unregisters(REUSED, "a", Done, RemovedModel(REUSED, "a"))
    ensures !ContributionsOwned(RemovedModel(REUSED, "a").extensions, RemovedModel(REUSED, "a").contributions)
  {
    hide Sound, Registers, Starts, Stops, ContributionsOwned, IsPlan;
    EmptyIsSound();
    PanelRegisters(EMPTY, "a");
    States();
    FirstOwnerStops();
    StoppedStateFits();
    PanelRegisters(One(Stopped, {}), "b");
    ReusedIsOwned();
    RemovalKeepsContributionsIff(REUSED, "a");
  }
}
