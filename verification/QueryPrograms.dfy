/** Uncached resolution as a program that asks for grants one at a time. */
module QueryPrograms {
  import opened Identifiers
  import opened SecretPatterns
  import opened SecretPolicy
  import opened Composition
  import opened Scopes
  import opened Gathering
  import opened ServiceTables

  /** A computation whose only view of the policy is one `has_read_grant` query per step. */
  datatype Program<A> = Done(value: A) | Ask(owner: ComponentRef, pattern: Pattern, yes: Program<A>, no: Program<A>)

  /** The result when every query is answered by the same grants. */
  function Answer<A>(p: Program<A>, grants: Grants): A {
    match p
    case Done(value) => value
    case Ask(owner, pattern, yes, no) => if HasReadGrant(grants, owner, pattern) then Answer(yes, grants) else Answer(no, grants)
  }

  /** One step: the next query, answered by the grants in force now. */
  function Proceed<A>(p: Program<A>, grants: Grants): Program<A>
    requires p.Ask?
  {
    if HasReadGrant(grants, p.owner, p.pattern) then p.yes else p.no
  }

  function Then<A, B>(p: Program<A>, f: A -> Program<B>): Program<B> {
    match p
    case Done(value) => f(value)
    case Ask(owner, pattern, yes, no) => Ask(owner, pattern, Then(yes, f), Then(no, f))
  }

  lemma {:induction false} AnswerThen<A, B>(p: Program<A>, f: A -> Program<B>, grants: Grants)
    ensures Answer(Then(p, f), grants) == Answer(f(Answer(p, grants)), grants)
  {
    match p {
      case Done(_) =>
      case Ask(_, _, yes, no) =>
        AnswerThen(yes, f, grants);
        AnswerThen(no, f, grants);
    }
  }

  // ---------- the resolver's queries, in the order it makes them ----------

  /** `requirements_satisfied` stops at the first missing grant. */
  function AskRequirements(owner: ComponentRef, requirements: seq<Pattern>): Program<bool> {
    if requirements == [] then Done(true)
    else Ask(owner, requirements[0], AskRequirements(owner, requirements[1..]), Done(false))
  }

  lemma {:induction false} RequirementsAnswer(owner: ComponentRef, requirements: seq<Pattern>, grants: Grants)
    ensures Answer(AskRequirements(owner, requirements), grants) == RequirementsSatisfied(grants, owner, requirements)
  {
    if requirements != [] {
      RequirementsAnswer(owner, requirements[1..], grants);
      assert RequirementsSatisfied(grants, owner, requirements)
        <==> HasReadGrant(grants, owner, requirements[0]) && RequirementsSatisfied(grants, owner, requirements[1..]) by
      {
        assert forall i | 1 <= i < |requirements| :: requirements[i] == requirements[1..][i - 1];
      }
    }
  }

  function AskEligible(p: Provider): Program<bool> {
    AskRequirements(p.owner, p.requiredGrants)
  }

  /** The owners kept by `retain` among the providers of one contract. */
  function AskRetain(contract: ContractKey, providers: seq<Provider>): Program<set<ComponentRef>> {
    if providers == [] then Done({})
    else if providers[0].contract != contract then AskRetain(contract, providers[1..])
    else Then(AskEligible(providers[0]), (ok: bool) =>
      Then(AskRetain(contract, providers[1..]), (rest: set<ComponentRef>) =>
        Done(if ok then rest + {providers[0].owner} else rest)))
  }

  lemma {:induction false} RetainAnswer(contract: ContractKey, providers: seq<Provider>, grants: Grants)
    ensures Answer(AskRetain(contract, providers), grants) == EligibleOwners(Elements(providers), contract, grants)
  {
    if providers == [] {
      assert EligibleOwners(Elements(providers), contract, grants) == {};
    } else {
      var p, rest := providers[0], providers[1..];
      RetainAnswer(contract, rest, grants);
      assert providers == [p] + rest;
      assert forall x :: x in Elements(providers) <==> x == p || x in Elements(rest);
      if p.contract == contract {
        var keep := (ok: bool) => Then(AskRetain(contract, rest), (r: set<ComponentRef>) => Done(if ok then r + {p.owner} else r));
        AnswerThen(AskEligible(p), keep, grants);
        RequirementsAnswer(p.owner, p.requiredGrants, grants);
        var ok := Answer(AskEligible(p), grants);
        AnswerThen(AskRetain(contract, rest), (r: set<ComponentRef>) => Done(if ok then r + {p.owner} else r), grants);
        assert EligibleOwners(Elements(providers), contract, grants)
            == EligibleOwners(Elements(rest), contract, grants) + if ok then {p.owner} else {};
      } else {
        assert EligibleOwners(Elements(providers), contract, grants) == EligibleOwners(Elements(rest), contract, grants);
      }
    }
  }

  /** Whether the preferred provider is offered and eligible: `find` skips every other owner. */
  function AskPreferred(contract: ContractKey, providers: seq<Provider>, preferred: ComponentRef): Program<bool> {
    if providers == [] then Done(false)
    else if providers[0].contract != contract || providers[0].owner != preferred then AskPreferred(contract, providers[1..], preferred)
    else Then(AskEligible(providers[0]), (ok: bool) => if ok then Done(true) else AskPreferred(contract, providers[1..], preferred))
  }

  lemma {:induction false} PreferredAnswer(contract: ContractKey, providers: seq<Provider>, preferred: ComponentRef, grants: Grants)
    ensures Answer(AskPreferred(contract, providers, preferred), grants) == Offers(Elements(providers), contract, grants, preferred)
  {
    if providers != [] {
      var p, rest := providers[0], providers[1..];
      PreferredAnswer(contract, rest, preferred, grants);
      assert providers == [p] + rest;
      assert forall x :: x in Elements(providers) <==> x == p || x in Elements(rest);
      if p.contract == contract && p.owner == preferred {
        AnswerThen(AskEligible(p), (ok: bool) => if ok then Done(true) else AskPreferred(contract, rest, preferred), grants);
        RequirementsAnswer(p.owner, p.requiredGrants, grants);
      }
    }
  }

  ghost function AskSelect(contract: ContractKey, resolution: Resolution, providers: seq<Provider>,
                           preferred: Option<ComponentRef>): Program<Selection>
  {
    if resolution.Single? && preferred.Some? then
      Then(AskPreferred(contract, providers, preferred.value), (ok: bool) =>
        Done(if ok then Selected([preferred.value]) else Failed(PreferredProviderUnavailable)))
    else if !exists p :: p in providers && p.contract == contract then Done(Failed(NoProvider))
    else Then(AskRetain(contract, providers), (eligible: set<ComponentRef>) => Done(SelectEligible(resolution, eligible)))
  }

  ghost function SelectEligible(resolution: Resolution, eligible: set<ComponentRef>): Selection {
    if eligible == {} then Failed(NoEligibleProvider)
    else match resolution
      case Single => Selected([LeastRef(eligible)])
      case Multiple => Selected(Listing(eligible))
  }

  lemma SelectAnswer(contract: ContractKey, resolution: Resolution, providers: seq<Provider>, preferred: Option<ComponentRef>, grants: Grants)
    ensures Answer(AskSelect(contract, resolution, providers, preferred), grants)
         == SelectFrom(Elements(providers), contract, resolution, preferred, grants)
  {
    hide EligibleOwners;
    if resolution.Single? && preferred.Some? {
      PreferredAnswer(contract, providers, preferred.value, grants);
      AnswerThen(AskPreferred(contract, providers, preferred.value), (ok: bool) =>
        Done(if ok then Selected([preferred.value]) else Failed(PreferredProviderUnavailable)), grants);
    } else {
      assert (exists p :: p in providers && p.contract == contract) <==> (exists p :: p in Elements(providers) && p.contract == contract);
      RetainAnswer(contract, providers, grants);
      AnswerThen(AskRetain(contract, providers), (eligible: set<ComponentRef>) => Done(SelectEligible(resolution, eligible)), grants);
    }
  }

  /** One consumer's pass through `resolve_contracts`. */
  ghost function AskOutcome(e: Endpoints, preferred: Preferences, c: Consumer): Program<Selection> {
    if !Defined(Elements(e.definitions), c.contract) then Done(Failed(UndefinedContract))
    else Then(AskRequirements(c.owner, c.requiredGrants), (ok: bool) =>
      if !ok then Done(Failed(ConsumerIneligible))
      else AskSelect(c.contract, DefinitionOf(Elements(e.definitions), c.contract).resolution, e.providers, Preferred(preferred, c.contract)))
  }

  lemma OutcomeAnswer(e: Endpoints, preferred: Preferences, c: Consumer, grants: Grants)
    ensures Answer(AskOutcome(e, preferred, c), grants) == Outcome(TopologyOf(e.definitions, e.providers, e.consumers, preferred), grants, c)
  {
    hide AskSelect, SelectFrom, RequirementsSatisfied;
    if Defined(Elements(e.definitions), c.contract) {
      var resolution := DefinitionOf(Elements(e.definitions), c.contract).resolution;
      RequirementsAnswer(c.owner, c.requiredGrants, grants);
      SelectAnswer(c.contract, resolution, e.providers, Preferred(preferred, c.contract), grants);
      AnswerThen(AskRequirements(c.owner, c.requiredGrants), (ok: bool) =>
        if !ok then Done(Failed(ConsumerIneligible))
        else AskSelect(c.contract, DefinitionOf(Elements(e.definitions), c.contract).resolution, e.providers, Preferred(preferred, c.contract)), grants);
    }
  }

  /** The whole pass over the scope's consumers, keeping only the caller's outcome. */
  ghost function AskAll(e: Endpoints, preferred: Preferences, consumers: seq<Consumer>, key: RouteKey): Program<Option<Selection>> {
    if consumers == [] then Done(None)
    else Then(AskOutcome(e, preferred, consumers[0]), (outcome: Selection) =>
      Then(AskAll(e, preferred, consumers[1..], key), (rest: Option<Selection>) =>
        Done(if consumers[0].owner == key.caller && consumers[0].contract == key.contract then Some(outcome) else rest)))
  }

  lemma {:induction false} AllAnswer(e: Endpoints, preferred: Preferences, consumers: seq<Consumer>, key: RouteKey, grants: Grants, c: Consumer)
    requires DistinctConsumers(consumers) && c in consumers && c.owner == key.caller && c.contract == key.contract
    ensures Answer(AskAll(e, preferred, consumers, key), grants)
         == Some(Outcome(TopologyOf(e.definitions, e.providers, e.consumers, preferred), grants, c))
  {
    hide AskOutcome, Outcome;
    var d, rest := consumers[0], consumers[1..];
    assert consumers == [d] + rest;
    OutcomeAnswer(e, preferred, d, grants);
    var outcome := Answer(AskOutcome(e, preferred, d), grants);
    AnswerThen(AskOutcome(e, preferred, d), (outcome: Selection) =>
      Then(AskAll(e, preferred, consumers[1..], key), (r: Option<Selection>) =>
        Done(if consumers[0].owner == key.caller && consumers[0].contract == key.contract then Some(outcome) else r)), grants);
    AnswerThen(AskAll(e, preferred, rest, key), (r: Option<Selection>) =>
      Done(if consumers[0].owner == key.caller && consumers[0].contract == key.contract then Some(outcome) else r), grants);
    if d.owner == key.caller && d.contract == key.contract {
      assert d == c by { SameEndpoint(consumers, d, c); }
    } else {
      assert DistinctConsumers(rest);
      AllAnswer(e, preferred, rest, key, grants, c);
    }
  }

  lemma SameEndpoint(consumers: seq<Consumer>, c: Consumer, d: Consumer)
    requires DistinctConsumers(consumers) && c in consumers && d in consumers
    requires c.owner == d.owner && c.contract == d.contract
    ensures c == d
  {
    var i :| 0 <= i < |consumers| && consumers[i] == c;
    var j :| 0 <= j < |consumers| && consumers[j] == d;
  }

  /** `resolve_binding_uncached` over endpoints gathered in some order. */
  ghost function AskBinding(e: Endpoints, preferred: Preferences, key: RouteKey): Program<BindingResult> {
    if !exists c :: c in e.consumers && c.owner == key.caller && c.contract == key.contract then Done(Unbound(NotConsumer))
    else if !Defined(Elements(e.definitions), key.contract) then Done(Unbound(Unavailable))
    else
      var d := DefinitionOf(Elements(e.definitions), key.contract);
      if !d.protocol.Service? then Done(Unbound(NotServiceContract))
      else Then(AskAll(e, preferred, e.consumers, key), (outcome: Option<Selection>) =>
        Done(if outcome.Some? && outcome.value.Selected? then Bound(d.resolution, outcome.value.providers) else Unbound(Unavailable)))
  }

  /** Whatever order the endpoints were gathered in, the resolver's queries compute the reference binding. */
  lemma BindingAnswer(e: Endpoints, preferred: Preferences, key: RouteKey, grants: Grants)
    requires WellFormed(TopologyOf(e.definitions, e.providers, e.consumers, preferred)) && DistinctConsumers(e.consumers)
    ensures Answer(AskBinding(e, preferred, key), grants)
         == BindingIn(TopologyOf(e.definitions, e.providers, e.consumers, preferred), grants, key)
  {
    hide AskAll, Outcome, DistinctConsumers;
    var topology := TopologyOf(e.definitions, e.providers, e.consumers, preferred);
    assert forall c :: Consumes(topology, key, c) <==> c in e.consumers && c.owner == key.caller && c.contract == key.contract;
    if (exists c :: Consumes(topology, key, c)) && Defined(topology.definitions, key.contract) {
      var d := DefinitionOf(topology.definitions, key.contract);
      var c :| Consumes(topology, key, c);
      assert forall x | Consumes(topology, key, x) :: x == c;
      AllAnswer(e, preferred, e.consumers, key, grants, c);
      AnswerThen(AskAll(e, preferred, e.consumers, key), (outcome: Option<Selection>) =>
        Done(if outcome.Some? && outcome.value.Selected? then Bound(d.resolution, outcome.value.providers) else Unbound(Unavailable)), grants);
    }
  }

  // ---------- whatever the answers ----------

  /** A refusal that no policy can change. */
  predicate Structural(error: ServiceError) {
    error.NotConsumer? || error.NotServiceContract?
  }

  ghost predicate Sure(t: Tables, key: RouteKey, result: BindingResult) {
    result.Unbound? && Structural(result.error) ==> forall grants :: BindingOf(t, grants, key) == result
  }

  /** However the queries are answered, also inconsistently, a structural refusal is the reference one. */
  ghost predicate Certain(p: Program<BindingResult>, t: Tables, key: RouteKey) {
    match p
    case Done(value) => Sure(t, key, value)
    case Ask(_, _, yes, no) => Certain(yes, t, key) && Certain(no, t, key)
  }

  lemma {:induction false} ThenCertain<A(!new)>(p: Program<A>, f: A -> Program<BindingResult>, t: Tables, key: RouteKey)
    requires forall x :: Certain(f(x), t, key)
    ensures Certain(Then(p, f), t, key)
  {
    hide Sure;
    match p {
      case Done(_) =>
      case Ask(_, _, yes, no) =>
        ThenCertain(yes, f, t, key);
        ThenCertain(no, f, t, key);
    }
  }

  /** The resolver looks at the consumer, the definition and its protocol before it asks anything. */
  lemma BindingIsCertain(e: Endpoints, preferred: Preferences, t: Tables, key: RouteKey)
    requires forall grants :: Answer(AskBinding(e, preferred, key), grants) == BindingOf(t, grants, key)
    ensures Certain(AskBinding(e, preferred, key), t, key)
  {
    hide AskAll, BindingOf;
    if (exists c :: c in e.consumers && c.owner == key.caller && c.contract == key.contract) && Defined(Elements(e.definitions), key.contract)
       && DefinitionOf(Elements(e.definitions), key.contract).protocol.Service?
    {
      var d := DefinitionOf(Elements(e.definitions), key.contract);
      ThenCertain(AskAll(e, preferred, e.consumers, key), (outcome: Option<Selection>) =>
        Done(if outcome.Some? && outcome.value.Selected? then Bound(d.resolution, outcome.value.providers) else Unbound(Unavailable)), t, key);
    } else {
      assert AskBinding(e, preferred, key).Done?;
    }
  }
}
