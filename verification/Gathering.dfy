/** Collecting the declarations of one scope, visiting a hash map in any order. */
module Gathering {
  import opened Identifiers
  import opened Composition
  import opened Scopes
  import opened DependencyGraph

  /** Lists a set in some order, as iterating a hash map does. */
  method Enumerate<T(==)>(s: set<T>) returns (items: seq<T>)
    ensures Distinct(items) && Elements(items) == s
  {
    items := [];
    var rest := s;
    while rest != {}
      invariant Distinct(items) && rest <= s
      invariant forall x :: x in items <==> x in s && x !in rest
      decreases rest
    {
      var x :| x in rest;
      items := items + [x];
      rest := rest - {x};
    }
  }

  ghost function StartingSet(starting: Option<ComponentRef>, included: set<Id>): set<Id> {
    if starting.Some? && starting.value.instanceId !in included then {starting.value.instanceId} else {}
  }

  ghost function StartingConsumers(registry: Registry, scope: Id, starting: Option<ComponentRef>, included: set<Id>): set<Consumer> {
    set c | c in ConsumersOf(registry, scope, StartingSet(starting, included)) && c.owner == starting.value
  }

  datatype Endpoints = Endpoints(definitions: seq<Definition>, providers: seq<Provider>, consumers: seq<Consumer>)

  /** The endpoints hold exactly what the visited instances of the scope contribute. */
  ghost predicate Holds(registry: Registry, scope: Id, included: set<Id>, starting: Option<ComponentRef>,
                        visited: set<Id>, e: Endpoints)
  {
    && Elements(e.definitions) == DefinitionsOf(registry, scope, (included + StartingSet(starting, included)) * visited)
    && Elements(e.providers) == ProvidersOf(registry, scope, included * visited)
    && Elements(e.consumers) == ConsumersOf(registry, scope, included * visited)
         + StartingConsumersAmong(registry, scope, starting, included, visited)
    && DistinctProviders(e.providers) && DistinctConsumers(e.consumers)
  }

  ghost function StartingConsumersAmong(registry: Registry, scope: Id, starting: Option<ComponentRef>, included: set<Id>,
                                        visited: set<Id>): set<Consumer>
  {
    set c | c in ConsumersOf(registry, scope, StartingSet(starting, included) * visited) && c.owner == starting.value
  }

  function DefinitionsIn(owned: seq<OwnedDefinition>): seq<Definition> {
    seq(|owned|, i requires 0 <= i < |owned| => owned[i].definition)
  }

  function OwnedBy(consumers: seq<Consumer>, owner: ComponentRef): (r: seq<Consumer>)
    ensures forall c :: c in r <==> c in consumers && c.owner == owner
  {
    if consumers == [] then []
    else
      var rest := OwnedBy(consumers[1..], owner);
      assert consumers == [consumers[0]] + consumers[1..];
      if consumers[0].owner == owner then [consumers[0]] + rest else rest
  }

  /** What one instance adds. */
  function Contribution(registry: Registry, scope: Id, included: set<Id>, starting: Option<ComponentRef>, id: Id): Endpoints
    requires id in registry
  {
    var d := registry[id];
    if d.scopeId != scope then Endpoints([], [], [])
    else if id in included then Endpoints(DefinitionsIn(d.definitions), d.providers, d.consumers)
    else if starting.Some? && starting.value.instanceId == id then
      Endpoints(DefinitionsIn(d.definitions), [], OwnedBy(d.consumers, starting.value))
    else Endpoints([], [], [])
  }

  /** Collects the declarations of every included instance of the scope; an instance that is still
      starting adds its definitions and its own consumer endpoints only. */
  method GatherScope(registry: Registry, platform: map<ContractKey, Definition>, scope: Id, included: set<Id>,
                     starting: Option<ComponentRef>)
    returns (e: Endpoints)
    requires forall id | id in registry :: OwnDeclarations(id, registry[id])
    ensures Elements(e.definitions) == platform.Values + DefinitionsOf(registry, scope, included + StartingSet(starting, included))
    ensures Elements(e.providers) == ProvidersOf(registry, scope, included)
    ensures Elements(e.consumers) == ConsumersOf(registry, scope, included) + StartingConsumers(registry, scope, starting, included)
    ensures DistinctProviders(e.providers) && DistinctConsumers(e.consumers)
  {
    hide Holds, OwnDeclarations, DistinctProviders, DistinctConsumers;
    var host := Enumerate(platform.Values);
    var ids := Enumerate(registry.Keys);
    e := Endpoints([], [], []);
    NothingVisited(registry, scope, included, starting);
    for i := 0 to |ids|
      invariant Holds(registry, scope, included, starting, Elements(ids[..i]), e)
    {
      assert ids[i] in Elements(ids);
      assert ids[..i + 1] == ids[..i] + [ids[i]];
      assert Elements(ids[..i + 1]) == Elements(ids[..i]) + {ids[i]};
      assert ids[i] !in ids[..i];
      var more := Contribution(registry, scope, included, starting, ids[i]);
      VisitOne(registry, scope, included, starting, Elements(ids[..i]), e, ids[i]);
      e := Endpoints(e.definitions + more.definitions, e.providers + more.providers, e.consumers + more.consumers);
    }
    assert ids[..|ids|] == ids;
    AllVisited(registry, scope, included, starting, e);
    JoinElements(host, e.definitions);
    e := e.(definitions := host + e.definitions);
  }

  lemma JoinElements<T>(a: seq<T>, b: seq<T>)
    ensures Elements(a + b) == Elements(a) + Elements(b)
  {
  }

  lemma NothingVisited(registry: Registry, scope: Id, included: set<Id>, starting: Option<ComponentRef>)
    ensures Holds(registry, scope, included, starting, Elements([]), Endpoints([], [], []))
  {
    assert Elements<Id>([]) == {};
    assert (included + StartingSet(starting, included)) * {} == {};
    assert DefinitionsOf(registry, scope, {}) == {};
  }

  lemma AllVisited(registry: Registry, scope: Id, included: set<Id>, starting: Option<ComponentRef>, e: Endpoints)
    requires Holds(registry, scope, included, starting, registry.Keys, e)
    ensures Elements(e.definitions) == DefinitionsOf(registry, scope, included + StartingSet(starting, included))
    ensures Elements(e.providers) == ProvidersOf(registry, scope, included)
    ensures Elements(e.consumers) == ConsumersOf(registry, scope, included) + StartingConsumers(registry, scope, starting, included)
    ensures DistinctProviders(e.providers) && DistinctConsumers(e.consumers)
  {
    OnlyRegistered(registry, scope, included + StartingSet(starting, included));
    OnlyRegistered(registry, scope, included);
    OnlyRegistered(registry, scope, StartingSet(starting, included));
  }

  lemma OnlyRegistered(registry: Registry, scope: Id, among: set<Id>)
    ensures DefinitionsOf(registry, scope, among * registry.Keys) == DefinitionsOf(registry, scope, among)
    ensures ProvidersOf(registry, scope, among * registry.Keys) == ProvidersOf(registry, scope, among)
    ensures ConsumersOf(registry, scope, among * registry.Keys) == ConsumersOf(registry, scope, among)
  {
    assert forall id :: Member(registry, scope, among * registry.Keys, id) <==> Member(registry, scope, among, id);
  }

  /** Adding one instance to a member set adds its declarations, if it is in the scope. */
  lemma OneMoreMember(registry: Registry, scope: Id, among: set<Id>, id: Id)
    requires id in registry
    ensures var d := registry[id];
      && DefinitionsOf(registry, scope, among + {id})
         == DefinitionsOf(registry, scope, among) + (if d.scopeId == scope then Elements(DefinitionsIn(d.definitions)) else {})
      && ProvidersOf(registry, scope, among + {id})
         == ProvidersOf(registry, scope, among) + (if d.scopeId == scope then Elements(d.providers) else {})
      && ConsumersOf(registry, scope, among + {id})
         == ConsumersOf(registry, scope, among) + (if d.scopeId == scope then Elements(d.consumers) else {})
  {
    var d := registry[id];
    assert forall x :: Member(registry, scope, among + {id}, x) <==>
      Member(registry, scope, among, x) || (x == id && d.scopeId == scope);
    forall x ensures x in DefinitionsOf(registry, scope, among + {id}) <==>
      x in DefinitionsOf(registry, scope, among) || (d.scopeId == scope && x in DefinitionsIn(d.definitions))
    {
      if d.scopeId == scope && x in DefinitionsIn(d.definitions) {
        var k :| 0 <= k < |d.definitions| && DefinitionsIn(d.definitions)[k] == x;
        assert Member(registry, scope, among + {id}, id) && d.definitions[k] in d.definitions;
      }
      if x in DefinitionsOf(registry, scope, among + {id}) {
        var y, o :| Member(registry, scope, among + {id}, y) && o in registry[y].definitions && o.definition == x;
        if y == id && !Member(registry, scope, among, y) {
          var k :| 0 <= k < |d.definitions| && d.definitions[k] == o;
          assert DefinitionsIn(d.definitions)[k] == x;
        }
      }
    }
    assert forall x :: x in ProvidersOf(registry, scope, among + {id}) <==>
      x in ProvidersOf(registry, scope, among) || (d.scopeId == scope && x in d.providers);
    assert forall x :: x in ConsumersOf(registry, scope, among + {id}) <==>
      x in ConsumersOf(registry, scope, among) || (d.scopeId == scope && x in d.consumers);
  }

  lemma VisitOne(registry: Registry, scope: Id, included: set<Id>, starting: Option<ComponentRef>,
                 visited: set<Id>, e: Endpoints, id: Id)
    requires Holds(registry, scope, included, starting, visited, e) && id in registry && id !in visited
    requires forall x | x in registry :: OwnDeclarations(x, registry[x])
    ensures var more := Contribution(registry, scope, included, starting, id);
      Holds(registry, scope, included, starting, visited + {id},
            Endpoints(e.definitions + more.definitions, e.providers + more.providers, e.consumers + more.consumers))
  {
    hide DistinctProviders, DistinctConsumers, OwnDeclarations, Contribution;
    StayDistinct(registry, scope, included, starting, visited, e, id);
    VisitDefinitions(registry, scope, included, starting, visited, e, id);
    VisitProviders(registry, scope, included, starting, visited, e, id);
    VisitConsumers(registry, scope, included, starting, visited, e, id);
  }

  lemma VisitDefinitions(registry: Registry, scope: Id, included: set<Id>, starting: Option<ComponentRef>,
                         visited: set<Id>, e: Endpoints, id: Id)
    requires id in registry && id !in visited
    requires Elements(e.definitions) == DefinitionsOf(registry, scope, (included + StartingSet(starting, included)) * visited)
    ensures Elements(e.definitions + Contribution(registry, scope, included, starting, id).definitions)
         == DefinitionsOf(registry, scope, (included + StartingSet(starting, included)) * (visited + {id}))
  {
    JoinElements(e.definitions, Contribution(registry, scope, included, starting, id).definitions);
    GrowMembers(registry, scope, included + StartingSet(starting, included), visited, id);
  }

  lemma VisitProviders(registry: Registry, scope: Id, included: set<Id>, starting: Option<ComponentRef>,
                       visited: set<Id>, e: Endpoints, id: Id)
    requires id in registry && id !in visited
    requires Elements(e.providers) == ProvidersOf(registry, scope, included * visited)
    ensures Elements(e.providers + Contribution(registry, scope, included, starting, id).providers)
         == ProvidersOf(registry, scope, included * (visited + {id}))
  {
    JoinElements(e.providers, Contribution(registry, scope, included, starting, id).providers);
    GrowMembers(registry, scope, included, visited, id);
  }

  lemma VisitConsumers(registry: Registry, scope: Id, included: set<Id>, starting: Option<ComponentRef>,
                       visited: set<Id>, e: Endpoints, id: Id)
    requires id in registry && id !in visited
    requires Elements(e.consumers) == ConsumersOf(registry, scope, included * visited)
               + StartingConsumersAmong(registry, scope, starting, included, visited)
    ensures Elements(e.consumers + Contribution(registry, scope, included, starting, id).consumers)
         == ConsumersOf(registry, scope, included * (visited + {id}))
            + StartingConsumersAmong(registry, scope, starting, included, visited + {id})
  {
    hide StartingConsumersAmong;
    JoinElements(e.consumers, Contribution(registry, scope, included, starting, id).consumers);
    GrowMembers(registry, scope, included, visited, id);
    GrowStarting(registry, scope, included, starting, visited, id);
  }

  lemma GrowStarting(registry: Registry, scope: Id, included: set<Id>, starting: Option<ComponentRef>, visited: set<Id>, id: Id)
    requires id in registry && id !in visited
    ensures StartingConsumersAmong(registry, scope, starting, included, visited + {id})
         == StartingConsumersAmong(registry, scope, starting, included, visited)
            + (if starting.Some? && starting.value.instanceId == id && id !in included && registry[id].scopeId == scope
               then Elements(OwnedBy(registry[id].consumers, starting.value)) else {})
  {
    GrowMembers(registry, scope, StartingSet(starting, included), visited, id);
  }

  lemma GrowMembers(registry: Registry, scope: Id, among: set<Id>, visited: set<Id>, id: Id)
    requires id in registry && id !in visited
    ensures var d := registry[id];
      var counts := id in among && d.scopeId == scope;
      && DefinitionsOf(registry, scope, among * (visited + {id}))
         == DefinitionsOf(registry, scope, among * visited) + (if counts then Elements(DefinitionsIn(d.definitions)) else {})
      && ProvidersOf(registry, scope, among * (visited + {id}))
         == ProvidersOf(registry, scope, among * visited) + (if counts then Elements(d.providers) else {})
      && ConsumersOf(registry, scope, among * (visited + {id}))
         == ConsumersOf(registry, scope, among * visited) + (if counts then Elements(d.consumers) else {})
  {
    if id in among {
      assert among * (visited + {id}) == among * visited + {id};
      OneMoreMember(registry, scope, among * visited, id);
    } else {
      assert among * (visited + {id}) == among * visited;
    }
  }

  lemma StayDistinct(registry: Registry, scope: Id, included: set<Id>, starting: Option<ComponentRef>,
                     visited: set<Id>, e: Endpoints, id: Id)
    requires Holds(registry, scope, included, starting, visited, e) && id in registry && id !in visited
    requires forall x | x in registry :: OwnDeclarations(x, registry[x])
    ensures var more := Contribution(registry, scope, included, starting, id);
      DistinctProviders(e.providers + more.providers) && DistinctConsumers(e.consumers + more.consumers)
  {
    hide OwnDeclarations;
    var more := Contribution(registry, scope, included, starting, id);
    forall i | 0 <= i < |e.providers| ensures e.providers[i].owner.instanceId in visited {
      var p := e.providers[i];
      assert p in Elements(e.providers);
      var x :| Member(registry, scope, included * visited, x) && p in registry[x].providers;
      OwnersMatch(x, registry[x]);
    }
    forall i | 0 <= i < |e.consumers| ensures e.consumers[i].owner.instanceId in visited {
      var c := e.consumers[i];
      assert c in Elements(e.consumers);
      var x :| (Member(registry, scope, included * visited, x)
                || Member(registry, scope, StartingSet(starting, included) * visited, x)) && c in registry[x].consumers;
      OwnersMatch(x, registry[x]);
    }
    OwnersMatch(id, registry[id]);
    if starting.Some? {
      OwnedByDistinct(registry[id].consumers, starting.value);
    }
  }

  lemma OwnersMatch(id: Id, d: Declarations)
    requires OwnDeclarations(id, d)
    ensures forall p | p in d.providers :: p.owner.instanceId == id
    ensures forall c | c in d.consumers :: c.owner.instanceId == id
    ensures DistinctProviders(d.providers) && DistinctConsumers(d.consumers)
  {
  }

  lemma {:induction false} OwnedByDistinct(consumers: seq<Consumer>, owner: ComponentRef)
    requires DistinctConsumers(consumers)
    ensures DistinctConsumers(OwnedBy(consumers, owner))
  {
    if consumers != [] {
      assert DistinctConsumers(consumers[1..]);
      OwnedByDistinct(consumers[1..], owner);
      var rest := OwnedBy(consumers[1..], owner);
      forall j | 0 <= j < |rest| && rest[j].owner == consumers[0].owner ensures rest[j].contract != consumers[0].contract {
        assert rest[j] in rest;
        var k :| 0 <= k < |consumers[1..]| && consumers[1..][k] == rest[j];
        assert consumers[k + 1] == rest[j];
      }
    }
  }
}
