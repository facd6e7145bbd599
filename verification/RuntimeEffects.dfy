/** Owner-scoped registry of reversible component runtime effects. */
module RuntimeEffects {
  import opened Identifiers
  import opened SecretPolicy

  datatype Effect = EventSubscription(topic: string) | SignalSubscription(topic: string)
  datatype EffectId = EffectId(owner: ComponentRef, sequence: nat)
  datatype OwnedEffect = OwnedEffect(owner: ComponentRef, effect: Effect)
  type Effects = map<EffectId, OwnedEffect>

  predicate Whitespace(c: char) {
    '\t' <= c <= '\r' || c == ' ' || c == '\U{85}' || c == '\U{A0}' || c == '\U{1680}'
    || '\U{2000}' <= c <= '\U{200A}' || c == '\U{2028}' || c == '\U{2029}' || c == '\U{202F}'
    || c == '\U{205F}' || c == '\U{3000}'
  }

  /** `topic.trim().is_empty()` */
  predicate Blank(topic: string) {
    forall i | 0 <= i < |topic| :: Whitespace(topic[i])
  }

  /** The effects that do not belong to one instance. */
  function EffectsOutside(effects: Effects, instance: Id): Effects {
    map id | id in effects && effects[id].owner.instanceId != instance :: effects[id]
  }

  ghost function Subscribers(effects: Effects, effect: Effect): set<ComponentRef> {
    set id | id in effects && effects[id].effect == effect :: effects[id].owner
  }

  datatype CallbackPhase = Starting | Stopping | Polling

  /** One callback of a component and how it answered. */
  datatype CallbackRun = CallbackRun(owner: ComponentRef, phase: CallbackPhase, ok: bool)

  class RuntimeEffectRegistry {
    var nextSequence: nat
    var effects: Effects
    // Every callback gets a context that borrows the registry: here is whose it was so far.
    ghost var ran: seq<CallbackRun>

    /** Identifiers carry their owner and were issued before the next sequence number. */
    ghost predicate Valid()
      reads this
    {
      nextSequence < U64_SIZE
      && forall id | id in effects :: id.owner == effects[id].owner && id.sequence < nextSequence
    }

    constructor ()
      ensures Valid() && effects == map[] && ran == []
    {
      nextSequence, effects, ran := 0, map[], [];
    }

    /** Registers one effect under an identifier never issued before. */
    method Register(owner: ComponentRef, effect: Effect) returns (id: Option<EffectId>)
      requires Valid()
      modifies this`nextSequence, this`effects
      ensures Valid() && nextSequence >= old(nextSequence)
      ensures id.None? <==> Blank(effect.topic) || old(nextSequence) == U64_SIZE - 1
      ensures id.None? ==> effects == old(effects)
      ensures id.Some? ==> id.value !in old(effects) && effects == old(effects)[id.value := OwnedEffect(owner, effect)]
    {
      if Blank(effect.topic) || nextSequence == U64_SIZE - 1 {
        return None;
      }
      var issued := EffectId(owner, nextSequence);
      nextSequence := nextSequence + 1;
      effects := effects[issued := OwnedEffect(owner, effect)];
      return Some(issued);
    }

    /** Revokes an effect only for its owner. */
    method Revoke(id: EffectId, caller: ComponentRef) returns (ok: bool)
      requires Valid()
      modifies this`effects
      ensures Valid()
      ensures ok <==> id in old(effects) && old(effects)[id].owner == caller
      ensures effects == if ok then old(effects) - {id} else old(effects)
    {
      ok := id in effects && effects[id].owner == caller;
      if ok {
        effects := effects - {id};
      }
    }

    method RevokeComponent(owner: ComponentRef)
      requires Valid()
      modifies this`effects
      ensures Valid()
      ensures effects == map id | id in old(effects) && old(effects)[id].owner != owner :: old(effects)[id]
    {
      effects := map id | id in effects && effects[id].owner != owner :: effects[id];
    }

    method RevokeInstance(instance: Id)
      requires Valid()
      modifies this`effects
      ensures Valid()
      ensures effects == EffectsOutside(old(effects), instance)
    {
      effects := EffectsOutside(effects, instance);
    }

    /** One entry per subscribed component, in principal order, however many handles it holds. */
    method SubscribersOf(effect: Effect) returns (owners: seq<ComponentRef>)
      ensures owners == Listing(Subscribers(effects, effect))
    {
      owners := [];
      var rest := effects.Keys;
      while rest != {}
        invariant rest <= effects.Keys
        invariant forall owner :: owner in owners <==>
          exists id :: id in effects && id !in rest && effects[id].effect == effect && effects[id].owner == owner
        decreases rest
      {
        var id :| id in rest;
        rest := rest - {id};
        if effects[id].effect == effect {
          owners := owners + [effects[id].owner];
        }
      }
      assert Elements(owners) == Subscribers(effects, effect);
      owners := SortByKey(owners, RefKey);
      owners := Dedup(owners);
      ListingIsTheOnlyOne(owners);
    }
  }

  /** Drops repeats from a sorted list. */
  method Dedup(sorted: seq<ComponentRef>) returns (r: seq<ComponentRef>)
    requires SortedByKey(sorted, RefKey)
    ensures StrictlySorted(r, RefKey) && Elements(r) == Elements(sorted)
  {
    r := [];
    for i := 0 to |sorted|
      invariant StrictlySorted(r, RefKey)
      invariant forall x :: x in r <==> x in sorted[..i]
      invariant |r| > 0 ==> i > 0 && r[|r| - 1] == sorted[i - 1]
    {
      if i == 0 || sorted[i] != sorted[i - 1] {
        KeepsStrict(r, sorted, i);
        r := r + [sorted[i]];
      }
      assert sorted[..i + 1] == sorted[..i] + [sorted[i]];
    }
    assert sorted[..|sorted|] == sorted;
  }

  lemma KeepsStrict(r: seq<ComponentRef>, sorted: seq<ComponentRef>, i: nat)
    requires i < |sorted| && SortedByKey(sorted, RefKey) && StrictlySorted(r, RefKey)
    requires |r| > 0 ==> i > 0 && r[|r| - 1] == sorted[i - 1] && sorted[i] != sorted[i - 1]
    ensures StrictlySorted(r + [sorted[i]], RefKey)
  {
    if |r| > 0 {
      var last := r[|r| - 1];
      KeyBeforeIsTotal(RefKey(last), RefKey(sorted[i]));
      forall k | 0 <= k < |r| ensures KeyBefore(RefKey(r[k]), RefKey(sorted[i])) {
        if k < |r| - 1 {
          KeyBeforeIsTransitive(RefKey(r[k]), RefKey(last), RefKey(sorted[i]));
        }
      }
    }
  }
}
