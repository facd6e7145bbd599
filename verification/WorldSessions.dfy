/** World-session control: requests, deletions and the host's own transitions, interleaved. */
module WorldSessions {
  import opened Identifiers

  const MAX_PENDING_SESSIONS: nat := 64

  /** What the shared control knows. */
  datatype Control = Control(active: set<Id>, pending: map<Id, bool>, errors: map<Id, string>)

  // ---------- the control's operations ----------

  predicate Refuses(c: Control, world: Id) {
    world !in c.pending && |c.pending| >= MAX_PENDING_SESSIONS
  }

  function WithRequest(c: Control, world: Id, active: bool): Control {
    c.(pending := c.pending[world := active], errors := c.errors - {world})
  }

  predicate Protects(c: Control, world: Id) {
    world in c.active || world in c.pending
  }

  /** Whether deferred commands and projections for the world are accepted. */
  predicate Accepts(c: Control, world: Id) {
    if world in c.pending then c.pending[world] else world in c.active
  }

  function WithOutcome(c: Control, world: Id, active: bool, diagnostic: Option<string>): Control {
    c.(active := if active then c.active + {world} else c.active - {world},
       errors := if diagnostic.Some? then c.errors[world := diagnostic.value] else c.errors - {world})
  }

  class WorldSessionControl {
    var active: set<Id>
    var pending: map<Id, bool>
    var errors: map<Id, string>

    function Contents(): Control
      reads this
    {
      Control(active, pending, errors)
    }

    ghost predicate Valid()
      reads this
    {
      |pending| <= MAX_PENDING_SESSIONS
    }

    constructor ()
      ensures Valid() && Contents() == Control({}, map[], map[])
    {
      active, pending, errors := {}, map[], map[];
    }

    /** The latest request for a world replaces an earlier one; at most 64 worlds wait. */
    method Request(world: Id, desired: bool) returns (ok: bool)
      requires Valid()
      modifies this
      ensures Valid() && (ok <==> !Refuses(old(Contents()), world))
      ensures Contents() == if ok then WithRequest(old(Contents()), world, desired) else old(Contents())
      ensures ok ==> active == old(active) && pending == old(pending)[world := desired] && errors == old(errors) - {world}
    {
      if world !in pending && |pending| >= MAX_PENDING_SESSIONS {
        return false;
      }
      assert pending[world := desired].Keys == pending.Keys + {world};
      pending := pending[world := desired];
      errors := errors - {world};
      return true;
    }

    /** Deletes a world only while it is neither active nor pending. */
    method DeleteInactive(world: Id, stored: set<Id>) returns (ok: bool, rest: set<Id>)
      modifies this`errors
      ensures ok <==> !Protects(old(Contents()), world) && world in stored
      ensures rest == if ok then stored - {world} else stored
      ensures Contents() == if ok then old(Contents()).(errors := old(errors) - {world}) else old(Contents())
    {
      if world in active || world in pending || world !in stored {
        return false, stored;
      }
      errors := errors - {world};
      return true, stored - {world};
    }

    /** A pending request decides before the recorded activity does. */
    method AcceptsDeferredAccess(world: Id) returns (ok: bool)
      ensures ok <==> Accepts(Contents(), world)
    {
      if world in pending {
        return pending[world];
      }
      return world in active;
    }

    method DrainPending() returns (batch: map<Id, bool>)
      modifies this`pending
      ensures batch == old(pending) && Contents() == old(Contents()).(pending := map[])
      ensures Valid()
    {
      batch, pending := pending, map[];
    }

    /** Records the outcome of a transition and leaves newer requests alone. */
    method RecordOutcome(world: Id, actual: bool, diagnostic: Option<string>)
      modifies this`active, this`errors
      ensures Contents() == WithOutcome(old(Contents()), world, actual, diagnostic)
      ensures active == (if actual then old(active) + {world} else old(active) - {world}) && pending == old(pending)
      ensures errors == if diagnostic.Some? then old(errors)[world := diagnostic.value] else old(errors) - {world}
    {
      if actual {
        active := active + {world};
      } else {
        active := active - {world};
      }
      if diagnostic.Some? {
        errors := errors[world := diagnostic.value];
      } else {
        errors := errors - {world};
      }
    }
  }

  // ---------- the host's pump ----------

  /** The world's diagnostic goes away only with a newer request for the world or with the world itself. */
  ghost predicate Reported(c: Control, stored: set<Id>, world: Id, diagnostic: string) {
    (world in c.errors && c.errors[world] == diagnostic) || world in c.pending || world !in stored
  }

  /** Since `c`, components requested and deleted: no activity changed, no active world went, no report was lost. */
  ghost predicate OnlyRequests(c: Control, stored: set<Id>, n: Control, rest: set<Id>) {
    && n.active == c.active && rest <= stored && c.pending.Keys <= n.pending.Keys
    && (forall world | world in stored && world in c.active :: world in rest)
    && (forall world | world in n.errors :: world in c.errors && n.errors[world] == c.errors[world])
    && forall world, text | Reported(c, stored, world, text) :: Reported(n, rest, world, text)
  }

  /** Requests and deletions that components make at this moment. */
  method ComponentsAct(control: WorldSessionControl, stored: set<Id>) returns (rest: set<Id>)
    requires control.Valid()
    modifies control
    ensures control.Valid() && OnlyRequests(old(control.Contents()), stored, control.Contents(), rest)
  {
    var requests: seq<(Id, bool)>, deletions: seq<Id> := *, *;
    rest := stored;
    for i := 0 to |requests|
      invariant control.Valid() && OnlyRequests(old(control.Contents()), stored, control.Contents(), rest)
    {
      var _ := control.Request(requests[i].0, requests[i].1);
    }
    for i := 0 to |deletions|
      invariant control.Valid() && OnlyRequests(old(control.Contents()), stored, control.Contents(), rest)
    {
      var _, left := control.DeleteInactive(deletions[i], rest);
      rest := left;
    }
  }

  /** `activate_world_inner`: the composition is loaded first and the storage opened last, and a world deleted
      before either of them does not come up; nor does one with a fault of its own. */
  method Activate(control: WorldSessionControl, world: Id, stored: set<Id>, fault: Option<string>)
    returns (failure: Option<string>, rest: set<Id>)
    requires control.Valid()
    modifies control
    ensures control.Valid() && OnlyRequests(old(control.Contents()), stored, control.Contents(), rest)
    ensures failure.None? <==> fault.None? && world in rest
    ensures fault.Some? && world in rest ==> failure == fault
  {
    rest := stored;
    if world !in rest {
      NothingRequested(control.Contents(), rest);
      return Some(WORLD_NOT_FOUND), rest;
    }
    rest := ComponentsAct(control, rest);
    if fault.Some? {
      return fault, rest;
    }
    failure := if world in rest then None else Some(WORLD_NOT_FOUND);
  }

  const WORLD_NOT_FOUND := "world not found"

  lemma NothingRequested(c: Control, stored: set<Id>)
    ensures OnlyRequests(c, stored, c, stored)
  {
  }

  /** Drains the requests and then opens the home. If it opens, every drained request is carried out: afterwards the
      control shows exactly the worlds the host runs, all of which still exist, a requested world runs unless it had
      a fault or is gone, and every fault, of activations and deactivations alike, is reported. Components keep
      requesting and deleting in between. If the home does not open, the drained requests are lost without a
      diagnostic. `faults` are the errors that transitions report of their own. */
  method PumpWorldSessions(control: WorldSessionControl, running: set<Id>, stored: set<Id>, homeOpens: bool, faults: map<Id, string>)
    returns (ok: bool, now: set<Id>, rest: set<Id>)
    requires control.Valid() && control.active == running && running <= stored
    modifies control
    ensures control.Valid() && control.active == now && now <= rest <= stored
    ensures ok <==> homeOpens || old(control.pending) == map[]
    ensures !ok ==> now == running && rest == stored && control.Contents() == old(control.Contents()).(pending := map[])
    ensures forall world | world !in old(control.pending) :: world in now <==> world in running
    ensures forall world | world in old(control.pending) && world in running && !old(control.pending)[world] :: world !in now <==> homeOpens
    ensures ok ==> forall world | world in old(control.pending) ::
      world in now <==> old(control.pending)[world] && (world in running || (world !in faults && world in rest))
    ensures ok ==> forall world | world in old(control.pending) && old(control.pending)[world] != (world in running) ::
      if world in faults then Reported(control.Contents(), rest, world, faults[world]) else world in control.errors ==> world !in rest
  {
    hide Reported;
    var batch := control.DrainPending();
    ok, now, rest := true, running, stored;
    if batch == map[] {
      return;
    }
    if !homeOpens {
      ok := false;
      return;
    }
    var waiting := batch.Keys;
    while waiting != {}
      invariant control.Valid() && control.active == now && waiting <= batch.Keys && now <= rest <= stored
      invariant forall world | world !in batch || world in waiting :: world in now <==> world in running
      invariant forall world | world in batch && world !in waiting ::
        world in now <==> batch[world] && (world in running || (world !in faults && world in rest))
      invariant forall world | world in batch && world !in waiting && batch[world] != (world in running) ::
        if world in faults then Reported(control.Contents(), rest, world, faults[world]) else world in control.errors ==> world !in rest
      decreases waiting
    {
      var world :| world in waiting;
      waiting := waiting - {world};
      now, rest := HandleOne(control, now, rest, world, batch[world], if world in faults then Some(faults[world]) else None);
    }
  }

  /** Carries out one drained request and records how it ended. */
  method HandleOne(control: WorldSessionControl, running: set<Id>, stored: set<Id>, world: Id, desired: bool, fault: Option<string>)
    returns (now: set<Id>, rest: set<Id>)
    requires control.Valid() && control.active == running && running <= stored
    modifies control
    ensures control.Valid() && control.active == now && now <= rest <= stored
    ensures forall w | w != world :: w in now <==> w in running
    ensures world in now <==> desired && (world in running || (fault.None? && world in rest))
    ensures desired != (world in running) ==>
      if fault.Some? then Reported(control.Contents(), rest, world, fault.value) else world in control.errors ==> world !in rest
    ensures forall w, text | w != world && Reported(old(control.Contents()), stored, w, text) :: Reported(control.Contents(), rest, w, text)
    ensures forall w | w != world && w in control.errors :: w in old(control.errors)
  {
    hide Reported;
    now, rest := running, stored;
    var failure: Option<string> := None;
    if desired == (world in now) {
      NothingRequested(control.Contents(), rest);
    } else if desired {
      failure, rest := Activate(control, world, rest, fault);
      now := if failure.None? then now + {world} else now;
    } else {
      rest := ComponentsAct(control, rest);
      now, failure := now - {world}, fault;
    }
    OutcomeReports(control.Contents(), rest, world, world in now, failure);
    control.RecordOutcome(world, world in now, failure);
    rest := ComponentsAct(control, rest);
    if fault.Some? {
      GoneIsReported(control.Contents(), rest, world, fault.value);
    }
  }

  lemma GoneIsReported(c: Control, stored: set<Id>, world: Id, text: string)
    ensures world !in stored ==> Reported(c, stored, world, text)
  {
  }

  /** Recording one world's outcome shows its failure and leaves every other report alone. */
  lemma OutcomeReports(c: Control, stored: set<Id>, world: Id, active: bool, failure: Option<string>)
    ensures forall w, text | w != world && Reported(c, stored, w, text) :: Reported(WithOutcome(c, world, active, failure), stored, w, text)
    ensures failure.Some? ==> Reported(WithOutcome(c, world, active, failure), stored, world, failure.value)
  {
  }

  // ---------- all interleavings ----------

  /** Where the host is: between transitions; in the callbacks of an activation, its composition loaded; past them
      with the storage open; in the callbacks of a deactivation; or done with an outcome not yet recorded. */
  datatype Phase =
    | Idle
    | Activating(world: Id)
    | Opened(world: Id)
    | Deactivating(world: Id)
    | Settled(world: Id, failed: bool)

  /** `running` are the worlds the host holds a runtime for. */
  datatype Sys = Sys(control: Control, running: set<Id>, stored: set<Id>, batch: map<Id, bool>, phase: Phase)

  datatype Event =
    | Request(world: Id, desired: bool)
    | Delete(world: Id)
    | Create(world: Id)
    | Drain(homeOpens: bool)
    | Begin(world: Id)
    | BeginDirect(world: Id, desired: bool)
    | Open(fails: bool)
    | Finish(fails: bool)
    | Record

  predicate Enabled(s: Sys, e: Event) {
    match e
    case Request(_, _) => true
    case Delete(_) => true
    case Create(_) => true
    case Drain(_) => s.phase.Idle? && s.batch == map[]
    case Begin(world) => s.phase.Idle? && world in s.batch
    case BeginDirect(_, _) => s.phase.Idle? && s.batch == map[]
    case Open(_) => s.phase.Activating?
    case Finish(_) => s.phase.Opened? || s.phase.Deactivating?
    case Record => s.phase.Settled?
  }

  /** Loading the composition of a world that no longer exists fails; a world to stop leaves the running ones first. */
  function Entered(s: Sys, world: Id, desired: bool): Sys {
    if desired then s.(phase := if world in s.stored then Activating(world) else Settled(world, true))
    else s.(running := s.running - {world}, phase := Deactivating(world))
  }

  function Step(s: Sys, e: Event): Sys
    requires Enabled(s, e)
  {
    match e
    case Request(world, desired) =>
      if Refuses(s.control, world) then s else s.(control := WithRequest(s.control, world, desired))
    case Delete(world) =>
      if DeleteAccepted(s, world) then s.(stored := s.stored - {world}, control := s.control.(errors := s.control.errors - {world})) else s
    case Create(world) => s.(stored := s.stored + {world})
    case Drain(homeOpens) => s.(control := s.control.(pending := map[]), batch := if homeOpens then s.control.pending else map[])
    case Begin(world) =>
      var rest := s.(batch := s.batch - {world});
      // A world that already is as requested is only recorded.
      if s.batch[world] == (world in s.running) then rest.(phase := Settled(world, false)) else Entered(rest, world, s.batch[world])
    case BeginDirect(world, desired) =>
      if desired == (world in s.running) then s.(phase := Settled(world, true)) else Entered(s, world, desired)
    case Open(fails) =>
      var world := s.phase.world;
      s.(phase := if fails || world !in s.stored then Settled(world, true) else Opened(world))
    case Finish(fails) =>
      var world := s.phase.world;
      s.(running := if s.phase.Opened? && !fails then s.running + {world} else s.running, phase := Settled(world, fails))
    case Record =>
      s.(control := WithOutcome(s.control, s.phase.world, s.phase.world in s.running, if s.phase.failed then Some("failed") else None),
         phase := Idle)
  }

  predicate DeleteAccepted(s: Sys, world: Id) {
    !Protects(s.control, world) && world in s.stored
  }

  predicate Follows(s: Sys, run: seq<Event>)
    decreases |run|
  {
    run == [] || (Enabled(s, run[0]) && Follows(Step(s, run[0]), run[1..]))
  }

  function After(s: Sys, run: seq<Event>): Sys
    requires Follows(s, run)
    decreases |run|
  {
    if run == [] then s else After(Step(s, run[0]), run[1..])
  }

  function Start(stored: set<Id>): Sys {
    Sys(Control({}, map[], map[]), {}, stored, map[], Idle)
  }

  /** Outside the one transition under way, the control shows exactly what the host runs; the queue is bounded. */
  ghost predicate Agrees(s: Sys) {
    && |s.control.pending| <= MAX_PENDING_SESSIONS
    && match s.phase
       case Deactivating(world) => s.control.active == s.running + {world} && world !in s.running
       case Settled(world, _) => s.control.active - {world} == s.running - {world}
       case _ => s.control.active == s.running
  }

  lemma StepKeepsAgreement(s: Sys, e: Event)
    requires Agrees(s) && Enabled(s, e)
    ensures Agrees(Step(s, e))
  {
    match e {
      case Request(world, desired) =>
        assert s.control.pending[world := desired].Keys == s.control.pending.Keys + {world};
      case Finish(fails) =>
        assert Step(s, e).running - {s.phase.world} == s.control.active - {s.phase.world};
      case Record =>
        var world, n := s.phase.world, Step(s, e);
        forall w ensures w in n.control.active <==> w in n.running {
          assert w != world ==> (w in s.control.active - {world} <==> w in s.running - {world});
        }
      case _ =>
    }
  }

  /** In every run, whenever the host is between transitions the control's active set is the set of running
      worlds, and never more than 64 requests wait. */
  lemma {:induction false} RunsAgree(s: Sys, run: seq<Event>)
    requires Agrees(s) && Follows(s, run)
    ensures Agrees(After(s, run))
    decreases |run|
  {
    if run != [] {
      StepKeepsAgreement(s, run[0]);
      RunsAgree(Step(s, run[0]), run[1..]);
    }
  }

  // ---------- requests ----------

  /** What was last requested for a world since the latest drain, among the requests that were accepted. */
  function LastRequest(s: Sys, run: seq<Event>, world: Id): Option<bool>
    requires Follows(s, run)
    decreases |run|
  {
    if run == [] then if world in s.control.pending then Some(s.control.pending[world]) else None
    else
      var last := run[|run| - 1];
      PrefixFollows(s, run);
      var before := After(s, run[..|run| - 1]);
      match last
      case Drain(_) => None
      case Request(w, desired) =>
        if w == world && !Refuses(before.control, w) then Some(desired) else LastRequest(s, run[..|run| - 1], world)
      case _ => LastRequest(s, run[..|run| - 1], world)
  }

  lemma {:induction false} PrefixFollows(s: Sys, run: seq<Event>)
    requires Follows(s, run) && |run| > 0
    ensures Follows(s, run[..|run| - 1])
    ensures var before := After(s, run[..|run| - 1]); Enabled(before, run[|run| - 1]) && After(s, run) == Step(before, run[|run| - 1])
    decreases |run|
  {
    if |run| == 1 {
      assert run[..0] == [] && run[1..] == [];
    } else {
      PrefixFollows(Step(s, run[0]), run[1..]);
      assert run[1..][..|run| - 2] == run[..|run| - 1][1..];
      assert run[1..][|run| - 2] == run[|run| - 1];
    }
  }

  /** Only the last accepted request per world since the previous drain is pending, and no transition that
      completes meanwhile takes it away. */
  lemma {:induction false} PendingIsLastRequest(s: Sys, run: seq<Event>, world: Id)
    requires Follows(s, run)
    ensures var c := After(s, run).control;
      LastRequest(s, run, world) == if world in c.pending then Some(c.pending[world]) else None
    decreases |run|
  {
    if run != [] {
      PrefixFollows(s, run);
      PendingIsLastRequest(s, run[..|run| - 1], world);
    }
  }

  /** Between transitions, deferred access to a world is accepted if and only if the last request since the drain
      asks for it, or, without one, the host runs it. */
  lemma DeferredAccessFollowsRequests(s: Sys, run: seq<Event>, world: Id)
    requires Agrees(s) && Follows(s, run) && After(s, run).phase.Idle?
    ensures var wanted := LastRequest(s, run, world);
      Accepts(After(s, run).control, world) <==> if wanted.Some? then wanted.value else world in After(s, run).running
  {
    hide LastRequest;
    RunsAgree(s, run);
    PendingIsLastRequest(s, run, world);
  }

  /** The run ends in the given state. */
  predicate Ends(s: Sys, run: seq<Event>, t: Sys) {
    Follows(s, run) && After(s, run) == t
  }

  lemma NothingYet(s: Sys)
    ensures Ends(s, [], s)
  {
  }

  /** A run may begin with any enabled event. */
  lemma BeginsWith(s: Sys, e: Event, run: seq<Event>, t: Sys)
    requires Enabled(s, e) && Ends(Step(s, e), run, t)
    ensures Ends(s, [e] + run, t)
  {
    assert ([e] + run)[1..] == run;
  }

  /** What has been asked of a world and not begun yet: drained first, pending after it. */
  predicate Waits(s: Sys, world: Id, desired: bool) {
    (world in s.batch && s.batch[world] == desired) || (world in s.control.pending && s.control.pending[world] == desired)
  }

  /** The steps that make a waiting request go: its beginning, a newer one, or a drain while the home cannot be opened. */
  predicate Takes(s: Sys, e: Event, world: Id, desired: bool)
    requires Enabled(s, e)
  {
    match e
    case Begin(w) => w == world && s.batch[w] == desired && !(world in s.control.pending && s.control.pending[world] == desired)
    case Request(w, other) => w == world && other != desired && !Refuses(s.control, w) && !(world in s.batch && s.batch[world] == desired)
    case Drain(homeOpens) => !homeOpens
    case _ => false
  }

  /** A request stops waiting exactly when it begins, is replaced, or is drained while the home cannot be opened. */
  lemma RequestsWaitUntilTaken(s: Sys, e: Event, world: Id, desired: bool)
    requires Enabled(s, e) && Waits(s, world, desired)
    ensures Waits(Step(s, e), world, desired) <==> !Takes(s, e, world, desired)
  {
  }

  /** The last of these loses it: the world keeps running, nothing is pending any more, and no error is shown. */
  lemma RequestsCanBeLost(world: Id)
    ensures var s := Start({world});
      var run := [BeginDirect(world, true), Open(false), Finish(false), Record, Request(world, false), Drain(false)];
      && Follows(s, run)
      && var t := After(s, run);
         t.phase.Idle? && t.batch == map[] && t.control.pending == map[] && t.control.errors == map[] && world in t.running
  {
    hide Follows, After;
    var s0 := Start({world});
    var s1 := Sys(Control({}, map[], map[]), {}, {world}, map[], Activating(world));
    var s2 := Sys(Control({}, map[], map[]), {}, {world}, map[], Opened(world));
    var s3 := Sys(Control({}, map[], map[]), {world}, {world}, map[], Settled(world, false));
    var s4 := Sys(Control({world}, map[], map[]), {world}, {world}, map[], Idle);
    var s5 := Sys(Control({world}, map[world := false], map[]), {world}, {world}, map[], Idle);
    var s6 := Sys(Control({world}, map[], map[]), {world}, {world}, map[], Idle);
    assert Enabled(s0, BeginDirect(world, true)) && Step(s0, BeginDirect(world, true)) == s1;
    assert Enabled(s1, Open(false)) && Step(s1, Open(false)) == s2;
    assert Enabled(s2, Finish(false)) && Step(s2, Finish(false)) == s3;
    assert Enabled(s3, Record) && Step(s3, Record) == s4;
    assert Enabled(s4, Request(world, false)) && Step(s4, Request(world, false)) == s5;
    assert Enabled(s5, Drain(false)) && Step(s5, Drain(false)) == s6;
    NothingYet(s6);
    var r6: seq<Event> := [];
    BeginsWith(s5, Drain(false), r6, s6);
    var r5 := [Drain(false)] + r6;
    BeginsWith(s4, Request(world, false), r5, s6);
    var r4 := [Request(world, false)] + r5;
    BeginsWith(s3, Record, r4, s6);
    var r3 := [Record] + r4;
    BeginsWith(s2, Finish(false), r3, s6);
    var r2 := [Finish(false)] + r3;
    BeginsWith(s1, Open(false), r2, s6);
    var r1 := [Open(false)] + r2;
    BeginsWith(s0, BeginDirect(world, true), r1, s6);
    var r0 := [BeginDirect(world, true)] + r1;
    assert r0 == [BeginDirect(world, true), Open(false), Finish(false), Record, Request(world, false), Drain(false)];
  }

  // ---------- deletions ----------

  /** The world whose storage an activation has opened, without the control showing it active yet. */
  predicate InTransition(s: Sys, world: Id) {
    match s.phase
    case Opened(w) => w == world
    case Settled(w, _) => w == world && w in s.running
    case _ => false
  }

  /** Every running world, and the one whose storage is open, still exists in storage. */
  ghost predicate Exist(s: Sys) {
    s.running <= s.stored && (s.phase.Opened? ==> s.phase.world in s.stored)
  }

  /** The deletion of a world between the opening of its storage and the recording of its activation. */
  predicate HitsTransition(s: Sys, e: Event) {
    e.Delete? && DeleteAccepted(s, e.world) && InTransition(s, e.world)
  }

  /** An accepted deletion keeps all running worlds in storage exactly when it does not hit the world in
      transition; every other step keeps them. */
  lemma DeletionIsSafeIff(s: Sys, e: Event)
    requires Agrees(s) && Exist(s) && Enabled(s, e)
    ensures Exist(Step(s, e)) <==> !HitsTransition(s, e)
  {
    match e {
      case Delete(world) =>
        if DeleteAccepted(s, world) {
          assert s.phase.Settled? ==> (world in s.control.active - {s.phase.world} <==> world in s.running - {s.phase.world});
        }
      case _ =>
    }
  }

  predicate NeverHits(s: Sys, run: seq<Event>)
    requires Follows(s, run)
    decreases |run|
  {
    run == [] || (!HitsTransition(s, run[0]) && NeverHits(Step(s, run[0]), run[1..]))
  }

  /** In a run whose deletions never hit the world in transition, no running world is ever deleted. */
  lemma {:induction false} RunningWorldsExist(s: Sys, run: seq<Event>)
    requires Agrees(s) && Exist(s) && Follows(s, run) && NeverHits(s, run)
    ensures Exist(After(s, run))
    decreases |run|
  {
    if run != [] {
      DeletionIsSafeIff(s, run[0]);
      StepKeepsAgreement(s, run[0]);
      RunningWorldsExist(Step(s, run[0]), run[1..]);
    }
  }

  /** Whether the host may be running a component: not between the opening of a world's storage and the recording of
      its successful activation. After a failure the rollback's callbacks run. */
  predicate ComponentsMayRun(s: Sys) {
    match s.phase
    case Opened(_) => false
    case Settled(world, _) => world !in s.running
    case _ => true
  }

  /** Deletions come from components that the host itself runs. */
  predicate FromCallbacks(s: Sys, run: seq<Event>)
    requires Follows(s, run)
    decreases |run|
  {
    run == [] || ((run[0].Delete? ==> ComponentsMayRun(s)) && FromCallbacks(Step(s, run[0]), run[1..]))
  }

  /** Whatever the components that the host itself runs delete, also inside a world's own activation, every
      running world exists in every run. */
  lemma {:induction false} CallbackDeletionsAreSafe(s: Sys, run: seq<Event>)
    requires Agrees(s) && Exist(s) && Follows(s, run) && FromCallbacks(s, run)
    ensures NeverHits(s, run) && Exist(After(s, run))
    decreases |run|
  {
    if run != [] {
      DeletionIsSafeIff(s, run[0]);
      StepKeepsAgreement(s, run[0]);
      CallbackDeletionsAreSafe(Step(s, run[0]), run[1..]);
    }
  }

  /** A caller on another thread can slip in between: the world is deleted, then shown active and running. */
  lemma DeletedWhileActivating(world: Id)
    ensures var s := Start({world});
      var run := [BeginDirect(world, true), Open(false), Delete(world), Finish(false), Record];
      && Follows(s, run)
      && After(s, run).phase.Idle? && world in After(s, run).running && world in After(s, run).control.active
      && world !in After(s, run).stored
  {
    hide Follows, After;
    var s0 := Start({world});
    var s1 := Sys(Control({}, map[], map[]), {}, {world}, map[], Activating(world));
    var s2 := Sys(Control({}, map[], map[]), {}, {world}, map[], Opened(world));
    var s3 := Sys(Control({}, map[], map[]), {}, {}, map[], Opened(world));
    var s4 := Sys(Control({}, map[], map[]), {world}, {}, map[], Settled(world, false));
    var s5 := Sys(Control({world}, map[], map[]), {world}, {}, map[], Idle);
    assert Enabled(s0, BeginDirect(world, true)) && Step(s0, BeginDirect(world, true)) == s1;
    assert Enabled(s1, Open(false)) && Step(s1, Open(false)) == s2;
    assert Enabled(s2, Delete(world)) && Step(s2, Delete(world)) == s3;
    assert Enabled(s3, Finish(false)) && Step(s3, Finish(false)) == s4;
    assert Enabled(s4, Record) && Step(s4, Record) == s5;
    NothingYet(s5);
    var r5: seq<Event> := [];
    BeginsWith(s4, Record, r5, s5);
    var r4 := [Record] + r5;
    BeginsWith(s3, Finish(false), r4, s5);
    var r3 := [Finish(false)] + r4;
    BeginsWith(s2, Delete(world), r3, s5);
    var r2 := [Delete(world)] + r3;
    BeginsWith(s1, Open(false), r2, s5);
    var r1 := [Open(false)] + r2;
    BeginsWith(s0, BeginDirect(world, true), r1, s5);
    var r0 := [BeginDirect(world, true)] + r1;
    assert r0 == [BeginDirect(world, true), Open(false), Delete(world), Finish(false), Record];
  }

  /** A world deleted by a callback of its own activation does not come up, and the control says so. */
  lemma DeletedByOwnCallback(world: Id)
    ensures var s := Start({world});
      var run := [Request(world, true), Drain(true), Begin(world), Delete(world), Open(false), Record];
      && Follows(s, run)
      && After(s, run).phase.Idle? && After(s, run).running == {} && world in After(s, run).control.errors
  {
    hide Follows, After;
    var s0 := Start({world});
    var s1 := Sys(Control({}, map[world := true], map[]), {}, {world}, map[], Idle);
    var s2 := Sys(Control({}, map[], map[]), {}, {world}, map[world := true], Idle);
    var s3 := Sys(Control({}, map[], map[]), {}, {world}, map[], Activating(world));
    var s4 := Sys(Control({}, map[], map[]), {}, {}, map[], Activating(world));
    var s5 := Sys(Control({}, map[], map[]), {}, {}, map[], Settled(world, true));
    var s6 := Sys(Control({}, map[], map[world := "failed"]), {}, {}, map[], Idle);
    assert Enabled(s0, Request(world, true)) && Step(s0, Request(world, true)) == s1;
    assert Enabled(s1, Drain(true)) && Step(s1, Drain(true)) == s2;
    assert Enabled(s2, Begin(world)) && Step(s2, Begin(world)) == s3;
    assert Enabled(s3, Delete(world)) && Step(s3, Delete(world)) == s4;
    assert Enabled(s4, Open(false)) && Step(s4, Open(false)) == s5;
    assert Enabled(s5, Record) && Step(s5, Record) == s6;
    NothingYet(s6);
    var r6: seq<Event> := [];
    BeginsWith(s5, Record, r6, s6);
    var r5 := [Record] + r6;
    BeginsWith(s4, Open(false), r5, s6);
    var r4 := [Open(false)] + r5;
    BeginsWith(s3, Delete(world), r4, s6);
    var r3 := [Delete(world)] + r4;
    BeginsWith(s2, Begin(world), r3, s6);
    var r2 := [Begin(world)] + r3;
    BeginsWith(s1, Drain(true), r2, s6);
    var r1 := [Drain(true)] + r2;
    BeginsWith(s0, Request(world, true), r1, s6);
    var r0 := [Request(world, true)] + r1;
    assert r0 == [Request(world, true), Drain(true), Begin(world), Delete(world), Open(false), Record];
  }
}
