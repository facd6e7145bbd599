/** Owner-scoped registry of non-built-in component execution targets. */
module ExecutionTargets {
  import opened Identifiers
  import opened Strings

  const WASM_COMPONENT_TARGET := "rintawa.runtime.wasm-component@1"

  datatype TargetError = InvalidTarget | DuplicateTarget

  predicate Digit(c: char) { '0' <= c <= '9' }
  predicate LowerAlphanumeric(c: char) { 'a' <= c <= 'z' || Digit(c) }

  predicate TargetSegment(s: string) {
    && |s| > 0
    && (forall i | 0 <= i < |s| :: LowerAlphanumeric(s[i]) || s[i] == '-' || s[i] == '_')
    && LowerAlphanumeric(s[0]) && LowerAlphanumeric(s[|s| - 1])
  }

  function Number(digits: string): nat
    requires forall i | 0 <= i < |digits| :: Digit(digits[i])
  {
    if |digits| == 0 then 0
    else
      assert Digit(digits[|digits| - 1]);
      Number(digits[..|digits| - 1]) * 10 + (digits[|digits| - 1] as int - '0' as int)
  }

  /** A canonical 32-bit decimal major version. */
  predicate CanonicalMajor(s: string) {
    && |s| > 0 && (forall i | 0 <= i < |s| :: Digit(s[i]))
    && (|s| == 1 || s[0] != '0') && Number(s) < 0x1_0000_0000
  }

  predicate TargetName(id: string) {
    && |id| <= 128 && |Split(id, '.')| >= 2
    && forall i | 0 <= i < |Split(id, '.')| :: TargetSegment(Split(id, '.')[i])
  }

  /** `<namespace>.<name>@<major>`, split at the last `@`. */
  predicate ValidTarget(value: string) {
    var pieces := Split(value, '@');
    var major := pieces[|pieces| - 1];
    && |pieces| > 1
    && |value| - |major| - 1 >= 0
    && TargetName(value[..|value| - |major| - 1]) && CanonicalMajor(major)
  }

  // ---------- what the grammar accepts ----------

  /** Over the characters: lower-case runs with single dots between them, a letter or digit at both ends of each. */
  lemma TargetNameIff(id: string)
    ensures TargetName(id) <==>
      |id| <= 128 && '.' in id && Separated(id, '.', c => LowerAlphanumeric(c) || c == '-' || c == '_', LowerAlphanumeric)
  {
    var inner := c => LowerAlphanumeric(c) || c == '-' || c == '_';
    SeparatedIff(id, '.', inner, LowerAlphanumeric);
    assert forall s :: Run(s, inner, LowerAlphanumeric) <==> TargetSegment(s);
    if '.' in id {
      SplitsAtSeparator(id, '.');
    } else {
      SplitWithout(id, '.');
    }
  }

  lemma {:induction false} NumberOfDecimal(n: nat)
    ensures Number(Decimal(n)) == n && (n > 0 ==> Decimal(n)[0] != '0') && (n == 0 ==> Decimal(n) == "0")
  {
    var s := Decimal(n);
    if n >= 10 {
      NumberOfDecimal(n / 10);
      assert s[..|s| - 1] == Decimal(n / 10);
    } else {
      assert s[..0] == "";
    }
  }

  lemma {:induction false} DecimalOfNumber(s: string)
    requires |s| > 0 && (forall i | 0 <= i < |s| :: Digit(s[i])) && (|s| == 1 || s[0] != '0')
    ensures Decimal(Number(s)) == s && (|s| > 1 ==> Number(s) >= 10)
  {
    var front, last := s[..|s| - 1], s[|s| - 1];
    assert Digit(last) && s == front + [last];
    if |s| > 1 {
      DecimalOfNumber(front);
      assert |front| == 1 ==> Number(front) >= 1 by {
        assert Digit(front[0]) && front[..0] == "";
      }
      assert Number(s) / 10 == Number(front) && Number(s) % 10 == last as int - '0' as int;
    } else {
      assert front == "";
    }
    assert '0' + (Number(s) % 10) as char == last;
  }

  ghost predicate NamesTarget(value: string, id: string, major: nat) {
    value == id + "@" + Decimal(major) && TargetName(id) && major < 0x1_0000_0000
  }

  lemma NamedIsValid(value: string, id: string, major: nat)
    requires NamesTarget(value, id, major)
    ensures ValidTarget(value)
  {
    hide TargetName, Number;
    SplitAppend(id, '@', Decimal(major));
    NumberOfDecimal(major);
    assert value[..|value| - |Decimal(major)| - 1] == id;
  }

  lemma ValidIsNamed(value: string) returns (id: string, major: nat)
    requires ValidTarget(value)
    ensures NamesTarget(value, id, major)
  {
    hide TargetName, Split;
    var pieces := Split(value, '@');
    var text := pieces[|pieces| - 1];
    LastPiece(value, '@');
    DecimalOfNumber(text);
    id, major := value[..|value| - |text| - 1], Number(text);
  }

  /** A target's text names one identifier and one 32-bit major version, and spells both in the only way it can. */
  lemma ValidTargetIff(value: string)
    ensures ValidTarget(value) <==> exists id, major :: NamesTarget(value, id, major)
    ensures forall a, m, b, n | NamesTarget(value, a, m) && NamesTarget(value, b, n) :: a == b && m == n
  {
    hide ValidTarget, TargetName;
    if ValidTarget(value) {
      var id, major := ValidIsNamed(value);
    }
    forall id, major | NamesTarget(value, id, major) ensures ValidTarget(value) {
      NamedIsValid(value, id, major);
    }
    forall a, m, b, n | NamesTarget(value, a, m) && NamesTarget(value, b, n) ensures a == b && m == n {
      ContractTextIsInjective(ContractKey(a, m), ContractKey(b, n));
    }
  }

  type Hosts = map<string, ComponentRef>

  function HostsOutside(hosts: Hosts, instance: Id): Hosts {
    map target | target in hosts && hosts[target].instanceId != instance :: hosts[target]
  }

  /** Why a target cannot be registered now. */
  function RefusalOf(hosts: Hosts, target: string): Option<TargetError> {
    if !ValidTarget(target) then Some(InvalidTarget)
    else if target == WASM_COMPONENT_TARGET || target in hosts then Some(DuplicateTarget)
    else None
  }

  /** Revoking an instance makes exactly its own targets available to others, and undoes whatever it registered. */
  lemma RevocationFreesOwnTargets(hosts: Hosts, instance: Id, target: string)
    requires WASM_COMPONENT_TARGET !in hosts && forall t | t in hosts :: ValidTarget(t)
    ensures RefusalOf(HostsOutside(hosts, instance), target) != RefusalOf(hosts, target)
       <==> target in hosts && hosts[target].instanceId == instance
    ensures forall owner: ComponentRef | owner.instanceId == instance && RefusalOf(hosts, target).None? ::
      HostsOutside(hosts[target := owner], instance) == HostsOutside(hosts, instance)
  {
    hide ValidTarget;
    forall owner: ComponentRef | owner.instanceId == instance && RefusalOf(hosts, target).None?
      ensures HostsOutside(hosts[target := owner], instance) == HostsOutside(hosts, instance)
    {
    }
  }

  class ExecutionTargetRegistry {
    var hosts: Hosts

    constructor ()
      ensures hosts == map[]
    {
      hosts := map[];
    }

    /** A target has one owner until that owner is revoked; the built-in target is reserved. */
    method Register(owner: ComponentRef, target: string) returns (error: Option<TargetError>)
      modifies this
      ensures error == RefusalOf(old(hosts), target)
      ensures hosts == if error.None? then old(hosts)[target := owner] else old(hosts)
    {
      if !ValidTarget(target) {
        return Some(InvalidTarget);
      }
      if target == WASM_COMPONENT_TARGET || target in hosts {
        return Some(DuplicateTarget);
      }
      hosts := hosts[target := owner];
      return None;
    }

    method RevokeComponent(owner: ComponentRef)
      modifies this
      ensures hosts == map target | target in old(hosts) && old(hosts)[target] != owner :: old(hosts)[target]
    {
      hosts := map target | target in hosts && hosts[target] != owner :: hosts[target];
    }

    method RevokeInstance(instance: Id)
      modifies this
      ensures hosts == HostsOutside(old(hosts), instance)
    {
      hosts := HostsOutside(hosts, instance);
    }
  }
}
