/** The register callbacks of one extension instance and the checks on what they declared. */
module Registration {
  import opened Identifiers
  import opened SecretPatterns
  import opened Composition
  import opened Scopes
  import opened Gathering
  import opened DependencyGraph
  import opened Lists

  datatype RegistrationCall =
    | Contribute(contribution: Id)
    | Define(definition: Definition)
    | Provide(contract: ContractKey, requiredGrants: seq<Pattern>)
    | Consume(contract: ContractKey, required: bool, requiredGrants: seq<Pattern>)

  /** One component and what its `register` callback does. */
  datatype ComponentRegistration = ComponentRegistration(id: Id, calls: seq<RegistrationCall>, succeeds: bool)

  datatype Buffers = Buffers(contributions: seq<Id>, definitions: seq<OwnedDefinition>,
                             providers: seq<Provider>, consumers: seq<Consumer>)

  function DeclarationsOf(scope: Id, b: Buffers): Declarations {
    Declarations(scope, b.definitions, b.providers, b.consumers)
  }

  /** What the registration context guarantees about its buffers. */
  ghost predicate WellBuffered(instance: Id, scope: Id, components: set<Id>, taken: set<(Id, Id)>, b: Buffers) {
    && OwnDeclarations(instance, DeclarationsOf(scope, b))
    && (forall p | p in b.providers :: p.owner.componentId in components)
    && Distinct(b.contributions)
    && forall c | c in b.contributions :: (scope, c) !in taken
  }

  /** The call repeats something: a contribution id taken in the scope or by this instance, or an endpoint the
      component has already declared for the contract. */
  predicate Repeats(scope: Id, owner: ComponentRef, call: RegistrationCall, taken: set<(Id, Id)>, b: Buffers) {
    match call
    case Contribute(contribution) => (scope, contribution) in taken || contribution in b.contributions
    case Define(definition) => exists o | o in b.definitions :: o.owner == owner && o.definition.contract == definition.contract
    case Provide(contract, _) => exists p | p in b.providers :: p.owner == owner && p.contract == contract
    case Consume(contract, _, _) => exists c | c in b.consumers :: c.owner == owner && c.contract == contract
  }

  function Recorded(owner: ComponentRef, call: RegistrationCall, b: Buffers): Buffers {
    match call
    case Contribute(contribution) => b.(contributions := b.contributions + [contribution])
    case Define(definition) => b.(definitions := b.definitions + [OwnedDefinition(owner, definition)])
    case Provide(contract, requiredGrants) => b.(providers := b.providers + [Provider(owner, contract, requiredGrants)])
    case Consume(contract, required, requiredGrants) => b.(consumers := b.consumers + [Consumer(owner, contract, required, requiredGrants)])
  }

  /** What one component's calls leave in the buffers. */
  function BufferedCalls(scope: Id, owner: ComponentRef, calls: seq<RegistrationCall>, taken: set<(Id, Id)>, b: Buffers): Buffers {
    if calls == [] then b
    else
      var before := BufferedCalls(scope, owner, calls[..|calls| - 1], taken, b);
      var call := calls[|calls| - 1];
      if Repeats(scope, owner, call, taken, before) then before else Recorded(owner, call, before)
  }

  /** What all components of an instance declare: the first of every repeated call counts. */
  function Buffered(instance: Id, scope: Id, components: seq<ComponentRegistration>, taken: set<(Id, Id)>): Buffers {
    if components == [] then Buffers([], [], [], [])
    else
      var last := components[|components| - 1];
      BufferedCalls(scope, ComponentRef(instance, last.id), last.calls, taken, Buffered(instance, scope, components[..|components| - 1], taken))
  }

  // ---------- what the buffers say about the calls ----------

  /** A call with the component that makes it. */
  datatype Call = Call(component: Id, what: RegistrationCall)

  /** All calls in the order in which they are made. */
  function CallsOf(components: seq<ComponentRegistration>): seq<Call> {
    if components == [] then []
    else
      var last := components[|components| - 1];
      CallsOf(components[..|components| - 1]) + CallsOfOne(last.id, last.calls)
  }

  function CallsOfOne(component: Id, calls: seq<RegistrationCall>): seq<Call> {
    seq(|calls|, i requires 0 <= i < |calls| => Call(component, calls[i]))
  }

  /** Two calls declare the same thing: one contribution id, or one component's endpoint or definition of one contract. */
  predicate SameSubject(a: Call, b: Call) {
    match (a.what, b.what)
    case (Contribute(c), Contribute(d)) => c == d
    case (Define(c), Define(d)) => a.component == b.component && c.contract == d.contract
    case (Provide(c, _), Provide(d, _)) => a.component == b.component && c == d
    case (Consume(c, _, _), Consume(d, _, _)) => a.component == b.component && c == d
    case _ => false
  }

  /** The call is the first about its subject, and its contribution id is free in the scope. */
  predicate Counts(scope: Id, taken: set<(Id, Id)>, calls: seq<Call>, p: nat) {
    && p < |calls| && (calls[p].what.Contribute? ==> (scope, calls[p].what.contribution) !in taken)
    && forall q | 0 <= q < p :: !SameSubject(calls[q], calls[p])
  }

  function ContributionAt(scope: Id, taken: set<(Id, Id)>, calls: seq<Call>): nat -> Option<Id> {
    (p: nat) => if Counts(scope, taken, calls, p) && calls[p].what.Contribute? then Some(calls[p].what.contribution) else None
  }

  function DefinitionAt(instance: Id, scope: Id, taken: set<(Id, Id)>, calls: seq<Call>): nat -> Option<OwnedDefinition> {
    (p: nat) => if Counts(scope, taken, calls, p) && calls[p].what.Define?
                then Some(OwnedDefinition(ComponentRef(instance, calls[p].component), calls[p].what.definition)) else None
  }

  function ProviderAt(instance: Id, scope: Id, taken: set<(Id, Id)>, calls: seq<Call>): nat -> Option<Provider> {
    (p: nat) => if Counts(scope, taken, calls, p) && calls[p].what.Provide?
                then Some(Provider(ComponentRef(instance, calls[p].component), calls[p].what.contract, calls[p].what.requiredGrants)) else None
  }

  function ConsumerAt(instance: Id, scope: Id, taken: set<(Id, Id)>, calls: seq<Call>): nat -> Option<Consumer> {
    (p: nat) => if Counts(scope, taken, calls, p) && calls[p].what.Consume?
                then Some(Consumer(ComponentRef(instance, calls[p].component), calls[p].what.contract, calls[p].what.required,
                                   calls[p].what.requiredGrants)) else None
  }

  /** The buffers hold exactly what the counting calls declare, in call order. */
  ghost predicate Reads(instance: Id, scope: Id, taken: set<(Id, Id)>, calls: seq<Call>, b: Buffers) {
    && Shows(|calls|, ContributionAt(scope, taken, calls), b.contributions)
    && Shows(|calls|, DefinitionAt(instance, scope, taken, calls), b.definitions)
    && Shows(|calls|, ProviderAt(instance, scope, taken, calls), b.providers)
    && Shows(|calls|, ConsumerAt(instance, scope, taken, calls), b.consumers)
  }

  lemma NothingReads(instance: Id, scope: Id, taken: set<(Id, Id)>)
    ensures Reads(instance, scope, taken, [], Buffers([], [], [], []))
  {
    ShowsNothing(ContributionAt(scope, taken, []));
    ShowsNothing(DefinitionAt(instance, scope, taken, []));
    ShowsNothing(ProviderAt(instance, scope, taken, []));
    ShowsNothing(ConsumerAt(instance, scope, taken, []));
  }

  /** Any call about a subject is preceded by a first one, or is it. */
  lemma {:induction false} FirstAboutSubject(calls: seq<Call>, q: nat) returns (p: nat)
    requires q < |calls|
    ensures p <= q && (p == q || SameSubject(calls[p], calls[q])) && forall r | 0 <= r < p :: !SameSubject(calls[r], calls[p])
  {
    if r: nat :| r < q && SameSubject(calls[r], calls[q]) {
      p := FirstAboutSubject(calls, r);
    } else {
      p := q;
    }
  }

  /** A call is refused exactly when it does not count. */
  lemma RepeatsIff(instance: Id, scope: Id, taken: set<(Id, Id)>, calls: seq<Call>, b: Buffers, call: Call)
    requires Reads(instance, scope, taken, calls, b)
    ensures Repeats(scope, ComponentRef(instance, call.component), call.what, taken, b) <==> !Counts(scope, taken, calls + [call], |calls|)
  {
    hide Reads;
    var longer := calls + [call];
    assert forall q | 0 <= q < |calls| :: longer[q] == calls[q];
    if Repeats(scope, ComponentRef(instance, call.component), call.what, taken, b) {
      RepeatHasSubject(instance, scope, taken, calls, b, call);
    } else if q :| 0 <= q < |calls| && SameSubject(calls[q], call) {
      SubjectRepeats(instance, scope, taken, calls, b, call, q);
    }
  }

  lemma RepeatHasSubject(instance: Id, scope: Id, taken: set<(Id, Id)>, calls: seq<Call>, b: Buffers, call: Call)
    requires Reads(instance, scope, taken, calls, b)
    requires Repeats(scope, ComponentRef(instance, call.component), call.what, taken, b)
    ensures (call.what.Contribute? && (scope, call.what.contribution) in taken) || exists q :: 0 <= q < |calls| && SameSubject(calls[q], call)
  {
    hide Shows, Counts;
    var owner := ComponentRef(instance, call.component);
    match call.what {
      case Contribute(c) =>
        if c in b.contributions {
          var p := ShownHasPosition(|calls|, ContributionAt(scope, taken, calls), b.contributions, c);
          assert SameSubject(calls[p], call) by { CountsInRange(scope, taken, calls, p); }
        }
      case Define(d) =>
        var o :| o in b.definitions && o.owner == owner && o.definition.contract == d.contract;
        var p := ShownHasPosition(|calls|, DefinitionAt(instance, scope, taken, calls), b.definitions, o);
        assert SameSubject(calls[p], call) by { CountsInRange(scope, taken, calls, p); }
      case Provide(contract, _) =>
        var o :| o in b.providers && o.owner == owner && o.contract == contract;
        var p := ShownHasPosition(|calls|, ProviderAt(instance, scope, taken, calls), b.providers, o);
        assert SameSubject(calls[p], call) by { CountsInRange(scope, taken, calls, p); }
      case Consume(contract, _, _) =>
        var o :| o in b.consumers && o.owner == owner && o.contract == contract;
        var p := ShownHasPosition(|calls|, ConsumerAt(instance, scope, taken, calls), b.consumers, o);
        assert SameSubject(calls[p], call) by { CountsInRange(scope, taken, calls, p); }
    }
  }

  lemma CountsInRange(scope: Id, taken: set<(Id, Id)>, calls: seq<Call>, p: nat)
    ensures Counts(scope, taken, calls, p) ==> p < |calls|
  {
  }

  lemma SubjectRepeats(instance: Id, scope: Id, taken: set<(Id, Id)>, calls: seq<Call>, b: Buffers, call: Call, q: nat)
    requires Reads(instance, scope, taken, calls, b) && q < |calls| && SameSubject(calls[q], call)
    ensures Repeats(scope, ComponentRef(instance, call.component), call.what, taken, b)
  {
    hide Shows;
    var p := FirstAboutSubject(calls, q);
    assert SameSubject(calls[p], call);
    if !(call.what.Contribute? && (scope, call.what.contribution) in taken) {
      assert Counts(scope, taken, calls, p);
      match call.what {
        case Contribute(_) => ImageIsShown(|calls|, ContributionAt(scope, taken, calls), b.contributions, p);
        case Define(_) => ImageIsShown(|calls|, DefinitionAt(instance, scope, taken, calls), b.definitions, p);
        case Provide(_, _) => ImageIsShown(|calls|, ProviderAt(instance, scope, taken, calls), b.providers, p);
        case Consume(_, _, _) => ImageIsShown(|calls|, ConsumerAt(instance, scope, taken, calls), b.consumers, p);
      }
    }
  }

  /** One more call keeps the reading. */
  lemma NextCallReads(instance: Id, scope: Id, taken: set<(Id, Id)>, calls: seq<Call>, b: Buffers, call: Call)
    requires Reads(instance, scope, taken, calls, b)
    ensures var owner := ComponentRef(instance, call.component);
      Reads(instance, scope, taken, calls + [call],
            if Repeats(scope, owner, call.what, taken, b) then b else Recorded(owner, call.what, b))
  {
    hide Shows, Repeats;
    var longer := calls + [call];
    RepeatsIff(instance, scope, taken, calls, b, call);
    forall p: nat | p < |calls| ensures Counts(scope, taken, longer, p) <==> Counts(scope, taken, calls, p) {
      assert longer[p] == calls[p] && forall q | 0 <= q < p :: longer[q] == calls[q];
    }
    assert forall p | 0 <= p < |calls| :: longer[p] == calls[p];
    assert b.contributions + [] == b.contributions && b.definitions + [] == b.definitions;
    assert b.providers + [] == b.providers && b.consumers + [] == b.consumers;
    ShowsNext(|calls|, ContributionAt(scope, taken, calls), b.contributions, ContributionAt(scope, taken, longer));
    ShowsNext(|calls|, DefinitionAt(instance, scope, taken, calls), b.definitions, DefinitionAt(instance, scope, taken, longer));
    ShowsNext(|calls|, ProviderAt(instance, scope, taken, calls), b.providers, ProviderAt(instance, scope, taken, longer));
    ShowsNext(|calls|, ConsumerAt(instance, scope, taken, calls), b.consumers, ConsumerAt(instance, scope, taken, longer));
  }

  lemma {:induction false} ComponentReads(instance: Id, scope: Id, taken: set<(Id, Id)>, earlier: seq<Call>, b: Buffers,
                                          component: Id, calls: seq<RegistrationCall>)
    requires Reads(instance, scope, taken, earlier, b)
    ensures Reads(instance, scope, taken, earlier + CallsOfOne(component, calls),
                  BufferedCalls(scope, ComponentRef(instance, component), calls, taken, b))
  {
    hide Reads, Repeats, Recorded;
    if calls == [] {
      assert earlier + CallsOfOne(component, calls) == earlier;
    } else {
      var front, last := calls[..|calls| - 1], calls[|calls| - 1];
      ComponentReads(instance, scope, taken, earlier, b, component, front);
      NextCallReads(instance, scope, taken, earlier + CallsOfOne(component, front),
                    BufferedCalls(scope, ComponentRef(instance, component), front, taken, b), Call(component, last));
      assert (earlier + CallsOfOne(component, front)) + [Call(component, last)] == earlier + CallsOfOne(component, calls);
    }
  }

  /** What an instance declares, read off the calls of its components. */
  lemma {:induction false} BufferedReads(instance: Id, scope: Id, components: seq<ComponentRegistration>, taken: set<(Id, Id)>)
    ensures Reads(instance, scope, taken, CallsOf(components), Buffered(instance, scope, components, taken))
  {
    hide Reads;
    if components == [] {
      NothingReads(instance, scope, taken);
    } else {
      var front, last := components[..|components| - 1], components[|components| - 1];
      BufferedReads(instance, scope, front, taken);
      ComponentReads(instance, scope, taken, CallsOf(front), Buffered(instance, scope, front, taken), last.id, last.calls);
    }
  }

  /** One context call; a repeated one is refused and leaves the buffers alone. */
  method Accept(instance: Id, scope: Id, component: Id, call: RegistrationCall, taken: set<(Id, Id)>, b: Buffers,
                ghost components: set<Id>)
    returns (r: Buffers)
    requires WellBuffered(instance, scope, components, taken, b) && component in components
    ensures WellBuffered(instance, scope, components, taken, r)
    ensures var owner := ComponentRef(instance, component);
      r == if Repeats(scope, owner, call, taken, b) then b else Recorded(owner, call, b)
  {
    var owner := ComponentRef(instance, component);
    if Repeats(scope, owner, call, taken, b) {
      return b;
    }
    return Recorded(owner, call, b);
  }

  ghost function ComponentIds(components: seq<ComponentRegistration>): set<Id> {
    set c | c in components :: c.id
  }

  /** Runs every register callback in order; the first failing one aborts the registration. */
  method RunRegistration(instance: Id, scope: Id, components: seq<ComponentRegistration>, taken: set<(Id, Id)>)
    returns (ok: bool, b: Buffers)
    ensures WellBuffered(instance, scope, ComponentIds(components), taken, b)
    ensures ok ==> b == Buffered(instance, scope, components, taken) && Reads(instance, scope, taken, CallsOf(components), b)
    ensures ok <==> forall c | c in components :: c.succeeds
  {
    hide WellBuffered, Repeats, Recorded, Reads;
    BufferedReads(instance, scope, components, taken);
    b := Buffers([], [], [], []);
    NothingBuffered(instance, scope, ComponentIds(components), taken);
    for i := 0 to |components|
      invariant WellBuffered(instance, scope, ComponentIds(components), taken, b)
      invariant b == Buffered(instance, scope, components[..i], taken)
      invariant forall j | 0 <= j < i :: components[j].succeeds
    {
      var c := components[i];
      assert c.id in ComponentIds(components);
      assert components[..i + 1][..i] == components[..i] && components[..i + 1][i] == c;
      ghost var before := b;
      for k := 0 to |c.calls|
        invariant WellBuffered(instance, scope, ComponentIds(components), taken, b)
        invariant b == BufferedCalls(scope, ComponentRef(instance, c.id), c.calls[..k], taken, before)
      {
        assert c.calls[..k + 1][..k] == c.calls[..k] && c.calls[..k + 1][k] == c.calls[k];
        b := Accept(instance, scope, c.id, c.calls[k], taken, b, ComponentIds(components));
      }
      assert c.calls[..|c.calls|] == c.calls;
      if !c.succeeds {
        assert c in components;
        return false, b;
      }
    }
    assert components[..|components|] == components;
    return true, b;
  }

  lemma NothingBuffered(instance: Id, scope: Id, components: set<Id>, taken: set<(Id, Id)>)
    ensures WellBuffered(instance, scope, components, taken, Buffers([], [], [], []))
  {
  }

  // ---------- coherence with what the scope already declares ----------

  datatype DefinitionError = PlatformReserved(contract: ContractKey) | DefinitionConflict(contract: ContractKey)

  /** The definitions already made in the scope, by contract. */
  ghost predicate Indexes(registry: Registry, scope: Id, visited: set<Id>, index: map<ContractKey, Definition>) {
    && (forall k | k in index :: DefinedBy(registry, scope, visited, index[k]) && index[k].contract == k)
    && (forall id, o | Member(registry, scope, visited, id) && o in registry[id].definitions :: o.definition.contract in index)
  }

  method IndexDefinitions(registry: Registry, scope: Id) returns (index: map<ContractKey, Definition>)
    ensures Indexes(registry, scope, registry.Keys, index)
  {
    hide Indexes;
    index := map[];
    var ids := Enumerate(registry.Keys);
    NothingIndexed(registry, scope);
    for i := 0 to |ids|
      invariant Indexes(registry, scope, Elements(ids[..i]), index)
    {
      assert ids[i] in Elements(ids);
      assert ids[..i + 1] == ids[..i] + [ids[i]];
      assert Elements(ids[..i + 1]) == Elements(ids[..i]) + {ids[i]};
      var d := registry[ids[i]];
      ghost var before := index;
      if d.scopeId == scope {
        for k := 0 to |d.definitions|
          invariant IndexedSome(before, d.definitions, k, index)
        {
          index := index[d.definitions[k].definition.contract := d.definitions[k].definition];
        }
      }
      IndexOne(registry, scope, Elements(ids[..i]), before, ids[i], index);
    }
    assert ids[..|ids|] == ids;
  }

  ghost predicate IndexedSome(before: map<ContractKey, Definition>, definitions: seq<OwnedDefinition>, k: nat, index: map<ContractKey, Definition>)
    requires k <= |definitions|
  {
    && (forall c | c in index :: (c in before && index[c] == before[c])
                               || (exists j :: 0 <= j < k && definitions[j].definition == index[c] && index[c].contract == c))
    && (forall c | c in before :: c in index)
    && (forall j | 0 <= j < k :: definitions[j].definition.contract in index)
  }

  lemma NothingIndexed(registry: Registry, scope: Id)
    ensures Indexes(registry, scope, Elements<Id>([]), map[])
  {
  }

  lemma IndexOne(registry: Registry, scope: Id, visited: set<Id>, before: map<ContractKey, Definition>, id: Id, index: map<ContractKey, Definition>)
    requires id in registry && Indexes(registry, scope, visited, before)
    requires if registry[id].scopeId == scope then IndexedSome(before, registry[id].definitions, |registry[id].definitions|, index) else index == before
    ensures Indexes(registry, scope, visited + {id}, index)
  {
    var definitions := registry[id].definitions;
    forall k | k in index ensures DefinedBy(registry, scope, visited + {id}, index[k]) && index[k].contract == k {
      if k in before && index[k] == before[k] {
        var x, o :| Member(registry, scope, visited, x) && o in registry[x].definitions && o.definition == before[k];
        assert Member(registry, scope, visited + {id}, x);
      } else {
        var j :| 0 <= j < |definitions| && definitions[j].definition == index[k];
        assert Member(registry, scope, visited + {id}, id) && definitions[j] in definitions;
      }
    }
    forall x, o | Member(registry, scope, visited + {id}, x) && o in registry[x].definitions ensures o.definition.contract in index {
      if x == id {
        var j :| 0 <= j < |definitions| && definitions[j] == o;
      } else {
        assert Member(registry, scope, visited, x);
      }
    }
  }

  /** Whether adding the declarations keeps the whole registry coordinated. */
  ghost predicate FitsIn(registry: Registry, platform: PlatformTable, d: Declarations) {
    && LeavesPlatform(platform, d) && Agree(d, d)
    && forall id | id in registry :: Agree(registry[id], d)
  }

  /** The definition disagrees with one of its scope, or with an earlier one of the same declarations. */
  ghost predicate Conflicting(registry: Registry, d: Declarations, i: nat)
    requires i < |d.definitions|
  {
    var definition := d.definitions[i].definition;
    || (exists id, o :: Member(registry, d.scopeId, registry.Keys, id) && o in registry[id].definitions
                        && o.definition.contract == definition.contract && o.definition != definition)
    || exists j :: 0 <= j < i && d.definitions[j].definition.contract == definition.contract && d.definitions[j].definition != definition
  }

  ghost predicate OffendsAt(registry: Registry, platform: PlatformTable, d: Declarations, i: nat, e: DefinitionError)
    requires i < |d.definitions|
  {
    var contract := d.definitions[i].definition.contract;
    match e
    case PlatformReserved(named) => named == contract && contract in PlatformIn(platform, d.scopeId)
    case DefinitionConflict(named) => named == contract && contract !in PlatformIn(platform, d.scopeId) && Conflicting(registry, d, i)
  }

  /** The error names the first definition that offends, and why. */
  ghost predicate FirstOffence(registry: Registry, platform: PlatformTable, d: Declarations, e: DefinitionError) {
    exists i :: 0 <= i < |d.definitions| && OffendsAt(registry, platform, d, i, e)
                && forall j, f | 0 <= j < i :: !OffendsAt(registry, platform, d, j, f)
  }

  /** `validate_contract_definitions` accepts exactly the declarations that fit. */
  method ValidateDefinitions(registry: Registry, platform: PlatformTable, d: Declarations) returns (error: Option<DefinitionError>)
    requires Coordinated(registry, platform)
    ensures error.None? <==> FitsIn(registry, platform, d)
    ensures error.Some? ==> FirstOffence(registry, platform, d, error.value)
  {
    hide Indexes, FitsIn, Coordinated, Conflicting, FirstOffence;
    var index := IndexDefinitions(registry, d.scopeId);
    ghost var existing := index;
    for i := 0 to |d.definitions|
      invariant forall j | 0 <= j < i :: d.definitions[j].definition.contract !in PlatformIn(platform, d.scopeId)
      invariant Extended(existing, d.definitions, i, index)
      invariant forall j, f | 0 <= j < i :: !OffendsAt(registry, platform, d, j, f)
    {
      IndexDecides(registry, platform, d, existing, i, index);
      var definition := d.definitions[i].definition;
      if definition.contract in PlatformIn(platform, d.scopeId) {
        IsFirstOffence(registry, platform, d, i, PlatformReserved(definition.contract));
        Reserved(registry, platform, d, i);
        return Some(PlatformReserved(definition.contract));
      }
      if definition.contract in index {
        if index[definition.contract] != definition {
          IsFirstOffence(registry, platform, d, i, DefinitionConflict(definition.contract));
          Clashes(registry, platform, d, existing, i, index);
          return Some(DefinitionConflict(definition.contract));
        }
      } else {
        index := index[definition.contract := definition];
      }
    }
    AllFit(registry, platform, d, existing, index);
    return None;
  }

  /** The index after some incoming definitions: old entries kept, every incoming one present. */
  ghost predicate Extended(existing: map<ContractKey, Definition>, definitions: seq<OwnedDefinition>, i: nat, index: map<ContractKey, Definition>)
    requires i <= |definitions|
  {
    && (forall c | c in existing :: c in index && index[c] == existing[c])
    && (forall j | 0 <= j < i :: definitions[j].definition.contract in index
          && index[definitions[j].definition.contract] == definitions[j].definition)
    && (forall c | c in index && c !in existing ::
          exists j :: 0 <= j < i && definitions[j].definition.contract == c && definitions[j].definition == index[c])
  }

  lemma IsFirstOffence(registry: Registry, platform: PlatformTable, d: Declarations, i: nat, e: DefinitionError)
    requires i < |d.definitions| && OffendsAt(registry, platform, d, i, e)
    requires forall j, f | 0 <= j < i :: !OffendsAt(registry, platform, d, j, f)
    ensures FirstOffence(registry, platform, d, e)
  {
    hide OffendsAt;
  }

  /** Whether the definition conflicts can be read off the index. */
  lemma IndexDecides(registry: Registry, platform: PlatformTable, d: Declarations, existing: map<ContractKey, Definition>, i: nat, index: map<ContractKey, Definition>)
    requires Coordinated(registry, platform) && Indexes(registry, d.scopeId, registry.Keys, existing)
    requires i < |d.definitions| && Extended(existing, d.definitions, i, index)
    ensures var definition := d.definitions[i].definition;
      Conflicting(registry, d, i) <==> definition.contract in index && index[definition.contract] != definition
  {
    hide Coordinated;
    var definition := d.definitions[i].definition;
    if definition.contract in existing {
      var x, p :| Member(registry, d.scopeId, registry.Keys, x) && p in registry[x].definitions && p.definition == existing[definition.contract];
    }
    forall id, o | Member(registry, d.scopeId, registry.Keys, id) && o in registry[id].definitions && o.definition.contract == definition.contract
      ensures definition.contract in index && index[definition.contract] == o.definition
    {
      ExistingIsIndexed(registry, platform, d.scopeId, existing, id, o);
    }
  }

  lemma Reserved(registry: Registry, platform: PlatformTable, d: Declarations, i: nat)
    requires i < |d.definitions| && d.definitions[i].definition.contract in PlatformIn(platform, d.scopeId)
    ensures !FitsIn(registry, platform, d)
  {
    assert d.definitions[i] in d.definitions;
  }

  lemma Clashes(registry: Registry, platform: PlatformTable, d: Declarations, existing: map<ContractKey, Definition>, i: nat, index: map<ContractKey, Definition>)
    requires i < |d.definitions| && Indexes(registry, d.scopeId, registry.Keys, existing) && Extended(existing, d.definitions, i, index)
    requires d.definitions[i].definition.contract in index
    requires index[d.definitions[i].definition.contract] != d.definitions[i].definition
    ensures !FitsIn(registry, platform, d)
  {
    var definition := d.definitions[i].definition;
    assert d.definitions[i] in d.definitions;
    if definition.contract in existing {
      var id, o :| Member(registry, d.scopeId, registry.Keys, id) && o in registry[id].definitions && o.definition == existing[definition.contract];
      assert !Agree(registry[id], d);
    } else {
      var j :| 0 <= j < i && d.definitions[j].definition == index[definition.contract];
      assert d.definitions[j] in d.definitions;
      assert !Agree(d, d);
    }
  }

  lemma AllFit(registry: Registry, platform: PlatformTable, d: Declarations, existing: map<ContractKey, Definition>, index: map<ContractKey, Definition>)
    requires Coordinated(registry, platform)
    requires Indexes(registry, d.scopeId, registry.Keys, existing) && Extended(existing, d.definitions, |d.definitions|, index)
    requires forall j | 0 <= j < |d.definitions| :: d.definitions[j].definition.contract !in PlatformIn(platform, d.scopeId)
    ensures FitsIn(registry, platform, d)
  {
    forall o | o in d.definitions ensures o.definition.contract in index && index[o.definition.contract] == o.definition {
      var j :| 0 <= j < |d.definitions| && d.definitions[j] == o;
    }
    forall id | id in registry ensures Agree(registry[id], d) {
      if registry[id].scopeId == d.scopeId {
        forall o, p | o in registry[id].definitions && p in d.definitions && o.definition.contract == p.definition.contract
          ensures o.definition == p.definition
        {
          ExistingIsIndexed(registry, platform, d.scopeId, existing, id, o);
        }
      }
    }
  }

  lemma ExistingIsIndexed(registry: Registry, platform: PlatformTable, scope: Id, existing: map<ContractKey, Definition>, id: Id, o: OwnedDefinition)
    requires Coordinated(registry, platform) && Indexes(registry, scope, registry.Keys, existing)
    requires id in registry && registry[id].scopeId == scope && o in registry[id].definitions
    ensures o.definition.contract in existing && existing[o.definition.contract] == o.definition
  {
    assert Member(registry, scope, registry.Keys, id);
    var x, p :| Member(registry, scope, registry.Keys, x) && p in registry[x].definitions && p.definition == existing[o.definition.contract];
    assert Agree(registry[id], registry[x]);
  }

  /** Declarations that fit keep the registry coordinated. */
  lemma FittingStaysCoordinated(registry: Registry, platform: PlatformTable, id: Id, d: Declarations)
    requires Coordinated(registry, platform) && id !in registry && OwnDeclarations(id, d) && FitsIn(registry, platform, d)
    ensures Coordinated(registry[id := d], platform)
  {
    hide OwnDeclarations, LeavesPlatform;
    var wider := registry[id := d];
    forall a, b | a in wider && b in wider ensures Agree(wider[a], wider[b]) {
      if a == id && b != id {
        assert Agree(registry[b], d);
      }
    }
  }
}
