/** Identifiers shared by every component, and the orders the source sorts them by. */
module Identifiers {

  // Rust compares strings by bytes; for UTF-8 this is the order of Unicode scalar values.
  type Id = string

  /** One component within one concrete extension runtime instance. */
  datatype ComponentRef = ComponentRef(instanceId: Id, componentId: Id)

  /** One major version of a contract. */
  datatype ContractKey = ContractKey(id: Id, version: nat)

  datatype Option<+T> = None | Some(value: T)

  // ---------- lexicographic order on strings ----------

  /** `a` comes strictly before `b`. */
  predicate Before(a: string, b: string)
  {
    |b| > 0 && (|a| == 0 || a[0] < b[0] || (a[0] == b[0] && Before(a[1..], b[1..])))
  }

  lemma {:induction false} BeforeIsTotal(a: string, b: string)
    ensures Before(a, b) || a == b || Before(b, a)
  {
    if |a| > 0 && |b| > 0 && a[0] == b[0] {
      BeforeIsTotal(a[1..], b[1..]);
      if a[1..] == b[1..] {
        assert a == [a[0]] + a[1..] && b == [b[0]] + b[1..];
      }
    }
  }

  lemma {:induction false} BeforeIsAsymmetric(a: string, b: string)
    requires Before(a, b)
    ensures !Before(b, a) && a != b
  {
    if |a| > 0 && a[0] == b[0] {
      BeforeIsAsymmetric(a[1..], b[1..]);
    }
  }

  lemma {:induction false} BeforeIsTransitive(a: string, b: string, c: string)
    requires Before(a, b) && Before(b, c)
    ensures Before(a, c)
  {
    if |a| > 0 && a[0] == b[0] == c[0] {
      BeforeIsTransitive(a[1..], b[1..], c[1..]);
    }
  }

  /** `a` and `b` agree up to position `k`, and there `a` has ended or has the smaller character. */
  predicate DiffersAt(a: string, b: string, k: nat) {
    k <= |a| && k < |b| && a[..k] == b[..k] && (k == |a| || a[k] < b[k])
  }

  /** `a` is a proper prefix of `b`, or has the smaller character where they first differ. */
  ghost predicate TextBefore(a: string, b: string) {
    exists k: nat :: DiffersAt(a, b, k)
  }

  /** The recursive comparison is the order by first difference. */
  lemma {:induction false} BeforeIsTextOrder(a: string, b: string)
    ensures Before(a, b) <==> TextBefore(a, b)
  {
    if |a| > 0 && |b| > 0 && a[0] == b[0] {
      BeforeIsTextOrder(a[1..], b[1..]);
      if k: nat :| DiffersAt(a[1..], b[1..], k) {
        assert a[..k + 1] == [a[0]] + a[1..][..k] && b[..k + 1] == [b[0]] + b[1..][..k];
        assert DiffersAt(a, b, k + 1);
      }
      if k: nat :| DiffersAt(a, b, k) {
        assert k > 0 && a[1..][..k - 1] == a[..k][1..] && b[1..][..k - 1] == b[..k][1..];
        assert DiffersAt(a[1..], b[1..], k - 1);
      }
    } else if Before(a, b) {
      assert DiffersAt(a, b, 0);
    } else {
      assert forall k: nat | 0 < k && DiffersAt(a, b, k) :: a[..k][0] == b[..k][0];
    }
  }

  // ---------- sort keys ----------

  /** The sort key of a contract endpoint: instance, component, contract text. */
  datatype SortKey = SortKey(first: string, second: string, third: string)

  predicate KeyBefore(a: SortKey, b: SortKey)
  {
    Before(a.first, b.first)
    || (a.first == b.first
        && (Before(a.second, b.second) || (a.second == b.second && Before(a.third, b.third))))
  }

  lemma KeyBeforeIsTotal(a: SortKey, b: SortKey)
    ensures KeyBefore(a, b) || a == b || KeyBefore(b, a)
  {
    BeforeIsTotal(a.first, b.first);
    BeforeIsTotal(a.second, b.second);
    BeforeIsTotal(a.third, b.third);
  }

  lemma KeyBeforeIsAsymmetric(a: SortKey, b: SortKey)
    requires KeyBefore(a, b)
    ensures !KeyBefore(b, a) && a != b
  {
    if Before(a.first, b.first) {
      BeforeIsAsymmetric(a.first, b.first);
    } else if Before(a.second, b.second) {
      BeforeIsAsymmetric(a.second, b.second);
    } else {
      BeforeIsAsymmetric(a.third, b.third);
    }
    if Before(b.first, a.first) { BeforeIsAsymmetric(b.first, a.first); }
    if Before(b.second, a.second) { BeforeIsAsymmetric(b.second, a.second); }
  }

  lemma KeyBeforeIsTransitive(a: SortKey, b: SortKey, c: SortKey)
    requires KeyBefore(a, b) && KeyBefore(b, c)
    ensures KeyBefore(a, c)
  {
    if Before(a.first, b.first) && Before(b.first, c.first) {
      BeforeIsTransitive(a.first, b.first, c.first);
    }
    if Before(a.second, b.second) && Before(b.second, c.second) {
      BeforeIsTransitive(a.second, b.second, c.second);
    }
    if Before(a.third, b.third) && Before(b.third, c.third) {
      BeforeIsTransitive(a.third, b.third, c.third);
    }
  }

  function RefKey(ref: ComponentRef): SortKey {
    SortKey(ref.instanceId, ref.componentId, "")
  }

  /** Components are ordered by instance and then by component. */
  ghost predicate RefBefore(p: ComponentRef, q: ComponentRef) {
    TextBefore(p.instanceId, q.instanceId) || (p.instanceId == q.instanceId && TextBefore(p.componentId, q.componentId))
  }

  lemma KeysOrderComponents(p: ComponentRef, q: ComponentRef)
    ensures KeyBefore(RefKey(p), RefKey(q)) <==> RefBefore(p, q)
  {
    hide TextBefore;
    BeforeIsTextOrder(p.instanceId, q.instanceId);
    BeforeIsTextOrder(p.componentId, q.componentId);
  }

  // ---------- contract text ----------

  function Decimal(n: nat): (s: string)
    ensures |s| > 0 && forall i | 0 <= i < |s| :: '0' <= s[i] <= '9'
  {
    var digit := ['0' + (n % 10) as char];
    if n < 10 then digit else Decimal(n / 10) + digit
  }

  lemma {:induction false} DecimalIsInjective(m: nat, n: nat)
    requires Decimal(m) == Decimal(n)
    ensures m == n
  {
    var last := |Decimal(m)| - 1;
    assert Decimal(m)[last] == '0' + (m % 10) as char;
    assert Decimal(n)[last] == '0' + (n % 10) as char;
    assert m % 10 == n % 10;
    if m >= 10 || n >= 10 {
      assert Decimal(m)[..last] == if m < 10 then "" else Decimal(m / 10);
      assert Decimal(n)[..last] == if n < 10 then "" else Decimal(n / 10);
      assert m >= 10 && n >= 10;
      DecimalIsInjective(m / 10, n / 10);
    }
  }

  /** `id@version`, the text the resolver sorts contracts by. */
  function ContractText(contract: ContractKey): string {
    contract.id + "@" + Decimal(contract.version)
  }

  /** Contract identifiers may themselves contain `@`, yet no two contracts share a text. */
  lemma {:induction false} ContractTextIsInjective(a: ContractKey, b: ContractKey)
    requires ContractText(a) == ContractText(b)
    ensures a == b
  {
    var text := ContractText(a);
    var da, db := Decimal(a.version), Decimal(b.version);
    assert text[|a.id|] == '@' && text[|b.id|] == '@';
    assert forall k | |a.id| < k < |text| :: text[k] == da[k - |a.id| - 1];
    assert forall k | |b.id| < k < |text| :: text[k] == db[k - |b.id| - 1];
    assert |a.id| == |b.id|;
    assert text[..|a.id|] == a.id && text[..|b.id|] == b.id;
    assert text[|a.id| + 1..] == da && text[|b.id| + 1..] == db;
    DecimalIsInjective(a.version, b.version);
  }

  // ---------- sorted listings ----------

  ghost function Elements<T>(s: seq<T>): set<T> {
    set x | x in s
  }

  ghost predicate SortedByKey<T>(s: seq<T>, key: T -> SortKey)
  {
    forall i, j | 0 <= i < j < |s| :: !KeyBefore(key(s[j]), key(s[i]))
  }

  ghost predicate DistinctKeys<T>(s: seq<T>, key: T -> SortKey)
  {
    forall i, j | 0 <= i < j < |s| :: key(s[i]) != key(s[j])
  }

  ghost predicate StrictlySorted<T>(s: seq<T>, key: T -> SortKey)
  {
    forall i, j | 0 <= i < j < |s| :: KeyBefore(key(s[i]), key(s[j]))
  }

  /** A strictly sorted listing is determined by its elements. */
  lemma {:induction false} StrictListingIsUnique<T>(s: seq<T>, t: seq<T>, key: T -> SortKey)
    requires StrictlySorted(s, key) && StrictlySorted(t, key)
    requires Elements(s) == Elements(t)
    ensures s == t
  {
    assert |s| > 0 ==> s[0] in Elements(s);
    assert |t| > 0 ==> t[0] in Elements(t);
    if |s| > 0 {
      HeadIsLeast(s, t, key);
      StrictTail(s, key);
      StrictTail(t, key);
      StrictListingIsUnique(s[1..], t[1..], key);
      assert s == [s[0]] + s[1..] && t == [t[0]] + t[1..];
    }
  }

  lemma HeadIsLeast<T>(s: seq<T>, t: seq<T>, key: T -> SortKey)
    requires StrictlySorted(s, key) && StrictlySorted(t, key)
    requires Elements(s) == Elements(t) && |s| > 0 && |t| > 0
    ensures s[0] == t[0]
  {
    assert s[0] in Elements(t) && t[0] in Elements(s);
    var i :| 0 <= i < |t| && t[i] == s[0];
    var j :| 0 <= j < |s| && s[j] == t[0];
    if i > 0 && j > 0 {
      assert KeyBefore(key(t[0]), key(t[i])) && KeyBefore(key(s[0]), key(s[j]));
      KeyBeforeIsAsymmetric(key(s[0]), key(s[j]));
    }
  }

  lemma StrictTail<T>(s: seq<T>, key: T -> SortKey)
    requires StrictlySorted(s, key) && |s| > 0
    ensures StrictlySorted(s[1..], key)
    ensures Elements(s[1..]) == Elements(s) - {s[0]}
  {
    forall x | x in Elements(s[1..]) ensures x != s[0] {
      var k :| 0 <= k < |s[1..]| && s[1..][k] == x;
      KeyBeforeIsAsymmetric(key(s[0]), key(s[k + 1]));
    }
    assert s == [s[0]] + s[1..];
  }

  /** Insertion sort by key, standing for the library's `sort_by`. */
  method SortByKey<T>(items: seq<T>, key: T -> SortKey) returns (sorted: seq<T>)
    ensures SortedByKey(sorted, key)
    ensures multiset(sorted) == multiset(items) && Elements(sorted) == Elements(items)
    ensures DistinctKeys(items, key) ==> StrictlySorted(sorted, key)
  {
    hide SortedByKey, StrictlySorted;
    sorted := [];
    NothingToSort(key);
    for n := 0 to |items|
      invariant SortedByKey(sorted, key)
      invariant multiset(sorted) == multiset(items[..n])
    {
      var at := |sorted|;
      while at > 0 && KeyBefore(key(items[n]), key(sorted[at - 1]))
        invariant 0 <= at <= |sorted|
        invariant forall k | at <= k < |sorted| :: KeyBefore(key(items[n]), key(sorted[k]))
      {
        at := at - 1;
      }
      InsertKeepsSorted(sorted, at, items[n], key);
      InsertKeepsAll(sorted, at, items, n);
      sorted := sorted[..at] + [items[n]] + sorted[at..];
    }
    assert items[..|items|] == items;
    SameElements(sorted, items);
    if DistinctKeys(items, key) {
      DistinctKeysPermute(items, sorted, key);
      SortedDistinctIsStrict(sorted, key);
    }
  }

  lemma InsertKeepsAll<T>(sorted: seq<T>, at: nat, items: seq<T>, n: nat)
    requires at <= |sorted| && n < |items| && multiset(sorted) == multiset(items[..n])
    ensures multiset(sorted[..at] + [items[n]] + sorted[at..]) == multiset(items[..n + 1])
  {
    assert sorted == sorted[..at] + sorted[at..];
    assert items[..n + 1] == items[..n] + [items[n]];
  }

  lemma NothingToSort<T>(key: T -> SortKey)
    ensures SortedByKey([], key)
  {
  }

  lemma SortedDistinctIsStrict<T>(s: seq<T>, key: T -> SortKey)
    requires SortedByKey(s, key) && DistinctKeys(s, key)
    ensures StrictlySorted(s, key)
  {
    forall i, j | 0 <= i < j < |s| ensures KeyBefore(key(s[i]), key(s[j])) {
      KeyBeforeIsTotal(key(s[i]), key(s[j]));
    }
  }

  lemma SameElements<T>(s: seq<T>, t: seq<T>)
    requires multiset(s) == multiset(t)
    ensures Elements(s) == Elements(t)
  {
    forall x ensures x in s <==> x in t {
      assert x in s <==> x in multiset(s);
      assert x in t <==> x in multiset(t);
    }
  }

  /** Taking one element out of a listing with pairwise different keys. */
  lemma TakeOut<T>(s: seq<T>, k: nat, key: T -> SortKey) returns (others: seq<T>)
    requires DistinctKeys(s, key) && k < |s|
    ensures multiset(others) + multiset{s[k]} == multiset(s)
    ensures DistinctKeys(others, key)
    ensures forall y | y in others :: key(y) != key(s[k])
  {
    others := s[..k] + s[k + 1..];
    assert s == s[..k] + [s[k]] + s[k + 1..];
    forall m | 0 <= m < |others| ensures others[m] == if m < k then s[m] else s[m + 1] {
    }
  }

  /** Reordering keeps pairwise different keys. */
  lemma {:induction false} DistinctKeysPermute<T>(s: seq<T>, t: seq<T>, key: T -> SortKey)
    requires multiset(s) == multiset(t) && DistinctKeys(s, key)
    ensures DistinctKeys(t, key)
    decreases |t|
  {
    if |t| > 0 {
      var rest := t[1..];
      assert t == [t[0]] + rest;
      assert multiset(t) == multiset(rest) + multiset{t[0]};
      assert t[0] in multiset(s);
      var k :| 0 <= k < |s| && s[k] == t[0];
      var others := TakeOut(s, k, key);
      CancelOne(multiset(others), multiset(rest), t[0]);
      DistinctKeysPermute(others, rest, key);
      SameElements(others, rest);
      forall j | 0 <= j < |rest| ensures key(t[0]) != key(rest[j]) {
        assert rest[j] in Elements(others);
      }
      PrependDistinct(t[0], rest, key);
    }
  }

  lemma CancelOne<T>(a: multiset<T>, b: multiset<T>, x: T)
    requires a + multiset{x} == b + multiset{x}
    ensures a == b
  {
    assert a == (a + multiset{x}) - multiset{x};
    assert b == (b + multiset{x}) - multiset{x};
  }

  lemma PrependDistinct<T>(x: T, rest: seq<T>, key: T -> SortKey)
    requires DistinctKeys(rest, key)
    requires forall j | 0 <= j < |rest| :: key(x) != key(rest[j])
    ensures DistinctKeys([x] + rest, key)
  {
  }

  lemma InsertKeepsSorted<T>(s: seq<T>, at: nat, x: T, key: T -> SortKey)
    requires SortedByKey(s, key) && at <= |s|
    requires forall k | at <= k < |s| :: KeyBefore(key(x), key(s[k]))
    requires at > 0 ==> !KeyBefore(key(x), key(s[at - 1]))
    ensures SortedByKey(s[..at] + [x] + s[at..], key)
  {
    var r := s[..at] + [x] + s[at..];
    forall i, j | 0 <= i < j < |r| ensures !KeyBefore(key(r[j]), key(r[i])) {
      if j == at && i < at - 1 {
        if KeyBefore(key(x), key(s[i])) {
          KeyBeforeIsTotal(key(s[i]), key(s[at - 1]));
          if KeyBefore(key(s[i]), key(s[at - 1])) {
            KeyBeforeIsTransitive(key(x), key(s[i]), key(s[at - 1]));
          }
        }
      } else if i == at {
        KeyBeforeIsAsymmetric(key(x), key(s[j - 1]));
      }
    }
  }

  // ---------- the sorted listing of a set of components ----------

  ghost predicate IsLeastRef(s: set<ComponentRef>, m: ComponentRef) {
    m in s && forall x | x in s :: x == m || KeyBefore(RefKey(m), RefKey(x))
  }

  lemma {:induction false} LeastRefExists(s: set<ComponentRef>)
    requires s != {}
    ensures exists m :: IsLeastRef(s, m)
  {
    var x :| x in s;
    if s == {x} {
      assert IsLeastRef(s, x);
    } else {
      var rest := s - {x};
      assert s == rest + {x};
      LeastRefExists(rest);
      var m :| IsLeastRef(rest, m);
      KeyBeforeIsTotal(RefKey(x), RefKey(m));
      if KeyBefore(RefKey(x), RefKey(m)) {
        forall y | y in s && y != x ensures KeyBefore(RefKey(x), RefKey(y)) {
          if y != m {
            KeyBeforeIsTransitive(RefKey(x), RefKey(m), RefKey(y));
          }
        }
        assert IsLeastRef(s, x);
      } else {
        assert IsLeastRef(s, m);
      }
    }
  }

  ghost function LeastRef(s: set<ComponentRef>): (m: ComponentRef)
    requires s != {}
    ensures IsLeastRef(s, m)
  {
    LeastRefExists(s);
    var m :| IsLeastRef(s, m); m
  }

  lemma LeastRefIsUnique(s: set<ComponentRef>, m: ComponentRef)
    requires IsLeastRef(s, m)
    ensures m == LeastRef(s)
  {
    if m != LeastRef(s) {
      KeyBeforeIsAsymmetric(RefKey(m), RefKey(LeastRef(s)));
    }
  }

  /** The components of `s` in sorted order. */
  ghost function Listing(s: set<ComponentRef>): (l: seq<ComponentRef>)
    ensures StrictlySorted(l, RefKey) && Elements(l) == s
  {
    if s == {} then []
    else
      var m := LeastRef(s);
      var rest := Listing(s - {m});
      assert forall i | 0 <= i < |rest| :: rest[i] in Elements(rest);
      [m] + rest
  }

  lemma ListingIsTheOnlyOne(l: seq<ComponentRef>)
    requires StrictlySorted(l, RefKey)
    ensures l == Listing(Elements(l))
  {
    StrictListingIsUnique(l, Listing(Elements(l)), RefKey);
  }
}
