/** The limit of the revision protocol: 2^64 policy changes bring a revision back, and a stale hit with it. */
module PolicyWrap {
  import opened Identifiers
  import opened SecretPolicy
  import opened ServiceTables
  import opened ServiceRuntime
  import opened RouteProtocol

  ghost predicate ReachesIn(s: Sys, t: Sys, n: nat)
    decreases n
  {
    if n == 0 then s == t else exists u :: ReachesIn(s, u, n - 1) && Follows(u, t)
  }

  lemma ReachesItself(s: Sys)
    ensures ReachesIn(s, s, 0)
  {
    hide Follows;
  }

  lemma OneMore(s: Sys, u: Sys, t: Sys, n: nat)
    requires ReachesIn(s, u, n) && Follows(u, t)
    ensures ReachesIn(s, t, n + 1)
  {
    hide Follows;
  }

  /** `n` policy changes that alternate between two policies. */
  function Alternating(a: Grants, b: Grants, n: nat): (r: seq<Grants>)
    ensures |r| == n && (n > 0 ==> r[n - 1] == if n % 2 == 1 then a else b)
  {
    if n == 0 then [] else Alternating(a, b, n - 1) + [if n % 2 == 1 then a else b]
  }

  ghost function Changed(s: Sys, a: Grants, b: Grants, n: nat): Sys {
    s.(history := s.history + Alternating(a, b, n))
  }

  /** Any number of policy changes can pass while no resolver is at work. */
  lemma {:induction false} PolicyMayAlternate(s: Sys, a: Grants, b: Grants, n: nat)
    requires |s.history| > 0 && s.writing.None? && a != b && a != s.history[|s.history| - 1]
    ensures ReachesIn(s, Changed(s, a, b, n), 2 * n)
  {
    hide ReachesIn, Follows;
    if n == 0 {
      ReachesItself(s);
      assert s.history + [] == s.history;
    } else {
      PolicyMayAlternate(s, a, b, n - 1);
      LastAlternates(s.history, a, b, n);
      var written := OneChange(Changed(s, a, b, n - 1), if n % 2 == 1 then a else b);
      OneMore(s, Changed(s, a, b, n - 1), written, 2 * n - 2);
      OneMore(s, written, Changed(s, a, b, n), 2 * n - 1);
    }
  }

  lemma LastAlternates(history: seq<Grants>, a: Grants, b: Grants, n: nat)
    requires |history| > 0 && n > 0 && a != b && a != history[|history| - 1]
    ensures var before, next := history + Alternating(a, b, n - 1), if n % 2 == 1 then a else b;
      before[|before| - 1] != next && history + Alternating(a, b, n) == before + [next]
  {
    var before := history + Alternating(a, b, n - 1);
    if n > 1 {
      assert before[|before| - 1] == Alternating(a, b, n - 1)[n - 2];
    }
  }

  lemma OneChange(s: Sys, next: Grants) returns (written: Sys)
    requires |s.history| > 0 && s.writing.None? && next != s.history[|s.history| - 1]
    ensures Follows(s, written) && Follows(written, s.(history := s.history + [next]))
  {
    written := s.(writing := Some(next));
    assert Enabled(s, WriteGrants(next)) && written == Apply(s, WriteGrants(next));
    assert Enabled(written, BumpRevision) && Apply(written, BumpRevision) == s.(history := s.history + [next]);
  }

  /** The last reply is not what its tables resolve to under the grants of its epoch. */
  ghost predicate LastReplyIsStale(s: Sys) {
    && |s.replies| > 0
    && var r := s.replies[|s.replies| - 1];
       r.RouteReply? && r.epoch < |s.history| && r.result != RouteOf(r.tables, s.history[r.epoch], r.key)
  }

  /** With 2^64 policy changes in between, a hit can reply what no longer holds: the bound of
      `RouteCacheIsTransparent` is exact, and `StaleReplies.StaleHitIsReachable` is a run that exceeds it. */
  lemma WrappedRevisionGivesStaleHit(s: Sys, thread: nat, key: RouteKey, a: Grants, b: Grants)
    requires |s.history| > 0 && s.writing.None? && s.holder.None? && thread !in s.waiting
    requires Hit(s, key, Revision(Epoch(s)))
    requires a != b && a != s.history[|s.history| - 1] && RouteOf(s.tables, b, key) != s.cache[key].result
    ensures exists t, n :: ReachesIn(s, t, n) && LastReplyIsStale(t)
  {
    hide RouteOf, ReachesIn, Follows, LastReplyIsStale;
    PolicyMayAlternate(s, a, b, U64_SIZE);
    var u := Changed(s, a, b, U64_SIZE);
    assert u.history[Epoch(u)] == b;
    assert Revision(Epoch(u)) == Revision(Epoch(s)) by { WrapsAround(Epoch(s)); }
    var v, t := HitIsServed(u, thread, key);
    OneMore(s, u, v, 2 * U64_SIZE);
    OneMore(s, v, t, 2 * U64_SIZE + 1);
  }

  /** A resolver that reads the revision and then finds its route cached replies with it. */
  lemma HitIsServed(u: Sys, thread: nat, key: RouteKey) returns (v: Sys, t: Sys)
    requires |u.history| > 0 && u.holder.None? && thread !in u.waiting && Hit(u, key, Revision(Epoch(u)))
    requires RouteOf(u.tables, u.history[Epoch(u)], key) != u.cache[key].result
    ensures Follows(u, v) && Follows(v, t) && LastReplyIsStale(t)
  {
    hide RouteOf;
    assert Enabled(u, Begin(thread, Route, key));
    v := Apply(u, Begin(thread, Route, key));
    assert Enabled(v, ReadHit(thread));
    t := Apply(v, ReadHit(thread));
    assert t.replies[|t.replies| - 1] == RouteReply(u.tables, Epoch(u), key, u.cache[key].result);
  }

  lemma WrapsAround(epoch: nat)
    ensures Revision(epoch + U64_SIZE) == Revision(epoch)
  {
  }
}
