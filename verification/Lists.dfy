/** Filtering, renaming and weighing record lists. */
module Lists {
  import opened Identifiers

  /** Keeps the elements that pass, in order. */
  function Retain<T(!new)>(s: seq<T>, keep: T -> bool): (r: seq<T>)
    ensures forall x :: x in r <==> x in s && keep(x)
  {
    if s == [] then []
    else
      var last := s[|s| - 1];
      assert s == s[..|s| - 1] + [last];
      Retain(s[..|s| - 1], keep) + if keep(last) then [last] else []
  }

  /** Maps the elements that have an image, in order. */
  function FilterMap<T(!new)>(s: seq<T>, image: T -> Option<T>): (r: seq<T>)
    ensures forall y :: y in r <==> exists x :: x in s && image(x) == Some(y)
  {
    if s == [] then []
    else
      var last := s[|s| - 1];
      assert s == s[..|s| - 1] + [last];
      FilterMap(s[..|s| - 1], image) + if image(last).Some? then [image(last).value] else []
  }

  /** The position of the first element that passes. */
  function First<T>(s: seq<T>, test: T -> bool): (r: Option<nat>)
    ensures r.Some? ==> r.value < |s| && test(s[r.value]) && forall i | 0 <= i < r.value :: !test(s[i])
    ensures r.None? ==> forall i | 0 <= i < |s| :: !test(s[i])
  {
    if s == [] then None
    else if test(s[0]) then Some(0)
    else
      var rest := First(s[1..], test);
      assert forall i | 0 < i < |s| :: s[i] == s[1..][i - 1];
      if rest.Some? then Some(rest.value + 1) else None
  }

  // ---------- listings by position ----------

  ghost predicate Increasing(positions: seq<nat>) {
    forall i, j | 0 <= i < j < |positions| :: positions[i] < positions[j]
  }

  /** `s` lists, in order, the images of exactly those positions below `n` that have one. */
  ghost predicate Shows<T>(n: nat, image: nat -> Option<T>, s: seq<T>) {
    exists positions :: ShowsAt(n, image, s, positions)
  }

  ghost predicate ShowsAt<T>(n: nat, image: nat -> Option<T>, s: seq<T>, positions: seq<nat>) {
    && Increasing(positions) && |positions| == |s|
    && (forall p: nat :: p in positions <==> p < n && image(p).Some?)
    && forall k | 0 <= k < |s| :: image(positions[k]) == Some(s[k])
  }

  lemma ShowsNothing<T>(image: nat -> Option<T>)
    ensures Shows(0, image, [])
  {
    assert ShowsAt(0, image, [], []);
  }

  lemma PositionsExtend(positions: seq<nat>, n: nat)
    requires Increasing(positions) && forall k | 0 <= k < |positions| :: positions[k] < n
    ensures Increasing(positions + [n])
    ensures forall p: nat :: p in positions + [n] <==> p in positions || p == n
  {
  }

  lemma ShowsNext<T>(n: nat, image: nat -> Option<T>, s: seq<T>, next: nat -> Option<T>)
    requires Shows(n, image, s) && forall p: nat | p < n :: next(p) == image(p)
    ensures Shows(n + 1, next, s + if next(n).Some? then [next(n).value] else [])
  {
    hide Increasing;
    var positions :| ShowsAt(n, image, s, positions);
    assert forall k | 0 <= k < |positions| :: positions[k] in positions;
    if next(n).Some? {
      PositionsExtend(positions, n);
      var longer, t := positions + [n], s + [next(n).value];
      assert ShowsAt(n + 1, next, t, longer);
    } else {
      assert s + [] == s;
      assert ShowsAt(n + 1, next, s, positions);
    }
  }

  lemma ShownHasPosition<T>(n: nat, image: nat -> Option<T>, s: seq<T>, x: T) returns (p: nat)
    requires Shows(n, image, s) && x in s
    ensures p < n && image(p) == Some(x)
  {
    var positions :| ShowsAt(n, image, s, positions);
    var k :| 0 <= k < |s| && s[k] == x;
    assert positions[k] in positions;
    p := positions[k];
  }

  lemma ImageIsShown<T>(n: nat, image: nat -> Option<T>, s: seq<T>, p: nat)
    requires Shows(n, image, s) && p < n && image(p).Some?
    ensures image(p).value in s
  {
    var positions :| ShowsAt(n, image, s, positions);
    assert p in positions;
    var k :| 0 <= k < |positions| && positions[k] == p;
    assert s[k] == image(p).value;
  }

  function ImageAt<T, U>(s: seq<T>, image: T -> Option<U>): nat -> Option<U> {
    (p: nat) => if p < |s| then image(s[p]) else None
  }

  function KeptAt<T>(s: seq<T>, keep: T -> bool): nat -> Option<T> {
    (p: nat) => if p < |s| && keep(s[p]) then Some(s[p]) else None
  }

  lemma {:induction false} RetainShows<T(!new)>(s: seq<T>, keep: T -> bool)
    ensures Shows(|s|, KeptAt(s, keep), Retain(s, keep))
  {
    if s == [] {
      ShowsNothing(KeptAt(s, keep));
    } else {
      var front := s[..|s| - 1];
      RetainShows(front, keep);
      ShowsNext(|front|, KeptAt(front, keep), Retain(front, keep), KeptAt(s, keep));
    }
  }

  lemma {:induction false} FilterMapShows<T(!new)>(s: seq<T>, image: T -> Option<T>)
    ensures Shows(|s|, ImageAt(s, image), FilterMap(s, image))
  {
    if s == [] {
      ShowsNothing(ImageAt(s, image));
    } else {
      var front := s[..|s| - 1];
      FilterMapShows(front, image);
      ShowsNext(|front|, ImageAt(front, image), FilterMap(front, image), ImageAt(s, image));
    }
  }

  ghost predicate Unique<T, K>(s: seq<T>, key: T -> K) {
    forall i, j | 0 <= i < j < |s| :: key(s[i]) != key(s[j])
  }

  function Tally<T>(s: seq<T>, weigh: T -> nat): nat {
    if s == [] then 0 else Tally(s[..|s| - 1], weigh) + weigh(s[|s| - 1])
  }

  lemma TallyAppend<T>(s: seq<T>, x: T, weigh: T -> nat)
    ensures Tally(s + [x], weigh) == Tally(s, weigh) + weigh(x)
  {
    assert (s + [x])[..|s|] == s;
  }

  lemma {:induction false} TallyConcat<T>(s: seq<T>, t: seq<T>, weigh: T -> nat)
    ensures Tally(s + t, weigh) == Tally(s, weigh) + Tally(t, weigh)
  {
    if t == [] {
      assert s + t == s;
    } else {
      var front := t[..|t| - 1];
      assert (s + t)[..|s + t| - 1] == s + front;
      TallyConcat(s, front, weigh);
    }
  }

  lemma {:induction false} TallyUpdate<T>(s: seq<T>, i: nat, x: T, weigh: T -> nat)
    requires i < |s|
    ensures Tally(s[i := x], weigh) + weigh(s[i]) == Tally(s, weigh) + weigh(x)
  {
    var last := |s| - 1;
    if i == last {
      assert s[i := x][..last] == s[..last];
    } else {
      assert s[i := x][..last] == s[..last][i := x];
      TallyUpdate(s[..last], i, x, weigh);
    }
  }

  lemma {:induction false} TallyIncludes<T>(s: seq<T>, i: nat, weigh: T -> nat)
    requires i < |s|
    ensures weigh(s[i]) <= Tally(s, weigh)
  {
    if i < |s| - 1 {
      TallyIncludes(s[..|s| - 1], i, weigh);
    }
  }

  lemma {:induction false} TallyRetain<T(!new)>(s: seq<T>, keep: T -> bool, weigh: T -> nat)
    ensures Tally(Retain(s, keep), weigh) <= Tally(s, weigh)
  {
    if s != [] {
      var front, last := s[..|s| - 1], s[|s| - 1];
      TallyRetain(front, keep, weigh);
      if keep(last) {
        TallyAppend(Retain(front, keep), last, weigh);
      } else {
        assert Retain(s, keep) == Retain(front, keep) + [] == Retain(front, keep);
      }
    }
  }

  lemma {:induction false} TallyFilterMap<T(!new)>(s: seq<T>, image: T -> Option<T>, weigh: T -> nat, bound: T -> nat)
    requires forall x | x in s && image(x).Some? :: weigh(image(x).value) <= bound(x)
    ensures Tally(FilterMap(s, image), weigh) <= Tally(s, bound)
  {
    if s != [] {
      var front, last := s[..|s| - 1], s[|s| - 1];
      TallyFilterMap(front, image, weigh, bound);
      assert last in s;
      if image(last).Some? {
        TallyAppend(FilterMap(front, image), image(last).value, weigh);
      } else {
        assert FilterMap(s, image) == FilterMap(front, image) + [] == FilterMap(front, image);
      }
    }
  }

  /** Nothing weighs anything, so neither does the list. */
  lemma {:induction false} TallyNothing<T>(s: seq<T>, weigh: T -> nat)
    requires forall x | x in s :: weigh(x) == 0
    ensures Tally(s, weigh) == 0
  {
    if s != [] {
      assert s[|s| - 1] in s;
      TallyNothing(s[..|s| - 1], weigh);
    }
  }

  lemma {:induction false} RetainUnique<T(!new), K>(s: seq<T>, keep: T -> bool, key: T -> K)
    requires Unique(s, key)
    ensures Unique(Retain(s, keep), key)
  {
    if s != [] {
      var front, last := s[..|s| - 1], s[|s| - 1];
      assert Unique(front, key);
      RetainUnique(front, keep, key);
      var kept := Retain(front, keep);
      forall i | 0 <= i < |kept| ensures key(kept[i]) != key(last) {
        assert kept[i] in front;
        var j :| 0 <= j < |front| && front[j] == kept[i];
        assert s[j] == front[j];
      }
    }
  }

  lemma {:induction false} FilterMapUnique<T(!new), K>(s: seq<T>, image: T -> Option<T>, key: T -> K)
    requires Unique(s, key)
    requires forall x, y | x in s && y in s && image(x).Some? && image(y).Some? && key(image(x).value) == key(image(y).value) :: key(x) == key(y)
    ensures Unique(FilterMap(s, image), key)
  {
    if s != [] {
      var front, last := s[..|s| - 1], s[|s| - 1];
      assert Unique(front, key) && last in s;
      FilterMapUnique(front, image, key);
      var mapped := FilterMap(front, image);
      if image(last).Some? {
        forall i | 0 <= i < |mapped| ensures key(mapped[i]) != key(image(last).value) {
          var x :| x in front && image(x) == Some(mapped[i]);
          var j :| 0 <= j < |front| && front[j] == x;
          assert s[j] == x && s[|s| - 1] == last;
        }
      }
    }
  }

  /** The images are those of the elements that have one, in order. */
  lemma {:induction false} FilterMapIsRetained<T(!new)>(s: seq<T>, image: T -> Option<T>, keep: T -> bool)
    requires forall x :: keep(x) <==> image(x).Some?
    ensures var kept := Retain(s, keep);
      |FilterMap(s, image)| == |kept| && forall i | 0 <= i < |kept| :: image(kept[i]) == Some(FilterMap(s, image)[i])
  {
    if s != [] {
      var front, last := s[..|s| - 1], s[|s| - 1];
      FilterMapIsRetained(front, image, keep);
      assert Retain(s, keep) == Retain(front, keep) + if keep(last) then [last] else [];
      assert FilterMap(s, image) == FilterMap(front, image) + if keep(last) then [image(last).value] else [];
    }
  }

  /** Images have different keys exactly when their originals differ in the part of the key that survives. */
  lemma FilterMapUniqueIff<T(!new), K, L>(s: seq<T>, image: T -> Option<T>, keep: T -> bool, key: T -> K, part: T -> L)
    requires forall x :: keep(x) <==> image(x).Some?
    requires forall x, y | image(x).Some? && image(y).Some? :: key(image(x).value) == key(image(y).value) <==> part(x) == part(y)
    ensures Unique(FilterMap(s, image), key) <==> Unique(Retain(s, keep), part)
  {
    hide FilterMap, Retain;
    FilterMapIsRetained(s, image, keep);
    var mapped, kept := FilterMap(s, image), Retain(s, keep);
    forall i, j | 0 <= i < j < |kept| ensures key(mapped[i]) == key(mapped[j]) <==> part(kept[i]) == part(kept[j]) {
      assert image(kept[i]).value == mapped[i] && image(kept[j]).value == mapped[j];
    }
  }

  lemma {:induction false} TallyThrough<T(!new)>(s: seq<T>, image: T -> Option<T>, weigh: T -> nat, before: T -> nat)
    requires forall x | x in s :: before(x) == if image(x).Some? then weigh(image(x).value) else 0
    ensures Tally(FilterMap(s, image), weigh) == Tally(s, before)
  {
    if s != [] {
      var front, last := s[..|s| - 1], s[|s| - 1];
      TallyThrough(front, image, weigh, before);
      assert last in s;
      if image(last).Some? {
        TallyAppend(FilterMap(front, image), image(last).value, weigh);
      } else {
        assert FilterMap(s, image) == FilterMap(front, image) + [] == FilterMap(front, image);
      }
    }
  }

  lemma UniqueAppend<T, K>(s: seq<T>, x: T, key: T -> K)
    requires Unique(s, key) && forall i | 0 <= i < |s| :: key(s[i]) != key(x)
    ensures Unique(s + [x], key)
  {
  }

  lemma UniqueUpdate<T, K>(s: seq<T>, i: nat, x: T, key: T -> K)
    requires Unique(s, key) && i < |s| && key(s[i]) == key(x)
    ensures Unique(s[i := x], key)
  {
  }
}
