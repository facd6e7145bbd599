/** Bounded ledgers of deferred operations: user-content writes and world-projection reads. */
module DeferredOperations {
  import opened Identifiers
  import opened DependencyGraph
  import opened Saturation
  import opened Lists

  const MAX_PENDING_WRITES: nat := 32
  const MAX_PENDING_WRITE_BYTES: nat := 64 * 1024 * 1024
  const MAX_PENDING_PROJECTIONS: nat := 64
  const MAX_RETAINED_STATUSES: nat := 256

  datatype Status = Pending | Succeeded(summary: string) | Failed(diagnostic: string)
  datatype OwnedStatus = OwnedStatus(owner: ComponentRef, status: Status)
  datatype Operation = Operation(id: Id, size: nat)
  datatype Request = Accepted(id: Id) | QueueFull | IdTaken

  function SizeOf(op: Operation): nat { op.size }
  function IdOf(op: Operation): Id { op.id }

  ghost function IdsOf(queue: seq<Operation>): (ids: set<Id>)
    ensures forall id :: id in ids <==> exists i :: 0 <= i < |queue| && queue[i].id == id
  {
    set op | op in queue :: op.id
  }

  /** One control's state; `drained` are the operations a pump has taken and not yet recorded. */
  datatype Book = Book(queue: seq<Operation>, pendingBytes: nat, statuses: map<Id, OwnedStatus>, completed: seq<Id>, drained: set<Id>)

  /** Every status id is queued, drained or completed, in exactly one of these ways. */
  ghost predicate Conserved(b: Book) {
    && Unique(b.queue, IdOf) && Distinct(b.completed)
    && IdsOf(b.queue) !! b.drained !! Elements(b.completed)
    && b.statuses.Keys == IdsOf(b.queue) + b.drained + Elements(b.completed)
    && (forall id | id in b.statuses :: b.statuses[id].status.Pending? <==> id in IdsOf(b.queue) + b.drained)
    && b.pendingBytes == Tally(b.queue, SizeOf)
  }

  ghost predicate Bounded(b: Book, maxPending: nat, maxBytes: nat) {
    |b.queue| <= maxPending && b.pendingBytes <= maxBytes && |b.statuses| <= MAX_RETAINED_STATUSES
  }

  /** How many of the oldest terminal statuses a request has to evict. */
  function Evicted(b: Book): nat {
    if |b.statuses| >= MAX_RETAINED_STATUSES then 1 else 0
  }

  /** The book once room for one more status was made. */
  function AfterEviction(b: Book): Book
    requires Evicted(b) <= |b.completed|
  {
    if Evicted(b) == 0 then b else b.(completed := b.completed[1..], statuses := b.statuses - {b.completed[0]})
  }

  /** The book with a new pending operation at the end of its queue. */
  function Queued(b: Book, owner: ComponentRef, op: Operation): Book {
    b.(queue := b.queue + [op], pendingBytes := b.pendingBytes + op.size, statuses := b.statuses[op.id := OwnedStatus(owner, Pending)])
  }

  /** All queued operations handed to a pump. */
  ghost function Drained(b: Book): Book {
    b.(queue := [], pendingBytes := 0, drained := b.drained + IdsOf(b.queue))
  }

  /** A drained operation with its terminal status. */
  ghost function Recorded(b: Book, id: Id, status: Status): Book
    requires id in b.statuses
  {
    b.(statuses := b.statuses[id := b.statuses[id].(status := status)], completed := b.completed + [id], drained := b.drained - {id})
  }

  // ---------- conservation ----------

  /** Each way of holding an id counts once: the status table is as large as the three lists together. */
  lemma StatusesCount(b: Book)
    requires Conserved(b)
    ensures |b.statuses| == |b.queue| + |b.drained| + |b.completed|
  {
    hide Tally;
    QueueCount(b.queue);
    DistinctSize(b.completed);
    assert |b.statuses| == |b.statuses.Keys|;
  }

  lemma {:induction false} QueueCount(queue: seq<Operation>)
    requires Unique(queue, IdOf)
    ensures |IdsOf(queue)| == |queue|
  {
    if queue != [] {
      var last := |queue| - 1;
      QueueCount(queue[..last]);
      assert forall i | 0 <= i < last :: queue[..last][i] == queue[i] && IdOf(queue[i]) != IdOf(queue[last]);
      assert IdsOf(queue) == IdsOf(queue[..last]) + {queue[last].id};
    }
  }

  lemma EvictionConserves(b: Book)
    requires Conserved(b) && |b.statuses| <= MAX_RETAINED_STATUSES && Evicted(b) <= |b.completed|
    ensures Conserved(AfterEviction(b)) && |AfterEviction(b).statuses| < MAX_RETAINED_STATUSES
  {
    hide Conserved;
    if Evicted(b) == 1 {
      OldestLeaves(b);
      StatusesCount(b);
      StatusesCount(AfterEviction(b));
    }
  }

  lemma OldestLeaves(b: Book)
    requires Conserved(b) && |b.completed| > 0
    ensures Conserved(b.(completed := b.completed[1..], statuses := b.statuses - {b.completed[0]}))
  {
    hide Tally, IdsOf, Unique;
    var oldest, rest := b.completed[0], b.completed[1..];
    assert b.completed == [oldest] + rest;
    assert oldest in Elements(b.completed);
    assert Elements(rest) == Elements(b.completed) - {oldest} by { RestIsOthers(b.completed); }
    assert forall i, j | 0 <= i < j < |rest| :: rest[i] == b.completed[i + 1] && rest[j] == b.completed[j + 1];
  }

  lemma RestIsOthers(s: seq<Id>)
    requires Distinct(s) && |s| > 0
    ensures Elements(s[1..]) == Elements(s) - {s[0]}
  {
    assert s == [s[0]] + s[1..];
    assert forall i | 0 <= i < |s| - 1 :: s[1..][i] == s[i + 1];
  }

  lemma QueueingConserves(b: Book, owner: ComponentRef, op: Operation)
    requires Conserved(b) && op.id !in b.statuses && |b.statuses| < MAX_RETAINED_STATUSES
    ensures Conserved(Queued(b, owner, op)) && |Queued(b, owner, op).statuses| <= MAX_RETAINED_STATUSES
  {
    var n := Queued(b, owner, op);
    QueuedStaysConserved(b, owner, op);
    hide Conserved;
    StatusesCount(b);
    StatusesCount(n);
  }

  lemma QueuedStaysConserved(b: Book, owner: ComponentRef, op: Operation)
    requires Conserved(b) && op.id !in b.statuses
    ensures Conserved(Queued(b, owner, op))
  {
    hide Tally, IdsOf, Unique, Distinct;
    var n, ids := Queued(b, owner, op), IdsOf(b.queue);
    TallyAppend(b.queue, op, SizeOf);
    QueueGrows(b.queue, op);
    assert op.id !in ids && op.id !in b.drained && op.id !in Elements(b.completed);
    assert IdsOf(n.queue) == ids + {op.id};
    assert (ids + {op.id}) !! b.drained !! Elements(b.completed);
    assert n.statuses.Keys == b.statuses.Keys + {op.id};
    assert n.statuses.Keys == IdsOf(n.queue) + n.drained + Elements(n.completed);
    forall id | id in n.statuses ensures n.statuses[id].status.Pending? <==> id in IdsOf(n.queue) + n.drained {
      if id != op.id {
        assert n.statuses[id] == b.statuses[id];
      }
    }
  }

  lemma QueueGrows(queue: seq<Operation>, op: Operation)
    requires Unique(queue, IdOf)
    ensures IdsOf(queue + [op]) == IdsOf(queue) + {op.id}
    ensures op.id !in IdsOf(queue) ==> Unique(queue + [op], IdOf)
  {
    var n := queue + [op];
    assert n[|queue|] == op;
    assert forall i | 0 <= i < |queue| :: n[i] == queue[i] && queue[i].id in IdsOf(queue);
    if op.id !in IdsOf(queue) {
      assert forall i | 0 <= i < |queue| :: IdOf(queue[i]) != IdOf(op);
      UniqueAppend(queue, op, IdOf);
    }
  }

  lemma DrainConserves(b: Book)
    requires Conserved(b)
    ensures Conserved(Drained(b))
  {
    assert IdsOf([]) == {};
  }

  lemma RecordConserves(b: Book, id: Id, status: Status)
    requires Conserved(b) && id in b.drained && !status.Pending?
    ensures Conserved(Recorded(b, id, status)) && |Recorded(b, id, status).statuses| == |b.statuses|
  {
    hide Tally, IdsOf, Unique;
    var n := Recorded(b, id, status);
    assert id !in Elements(b.completed);
    assert Elements(n.completed) == Elements(b.completed) + {id};
    assert n.statuses.Keys == b.statuses.Keys;
  }

  // ---------- the control ----------

  /** A deferred-operation control. Projection reads carry no payload: their operations have size zero. */
  class OperationControl {
    const maxPending: nat
    const maxBytes: nat
    var queue: seq<Operation>
    var pendingBytes: nat
    var statuses: map<Id, OwnedStatus>
    var completed: seq<Id>
    ghost var drained: set<Id>

    ghost function Contents(): Book
      reads this
    {
      Book(queue, pendingBytes, statuses, completed, drained)
    }

    /** One drained batch and a full queue together stay below the retained statuses. */
    ghost predicate Valid()
      reads this
    {
      && Conserved(Contents()) && Bounded(Contents(), maxPending, maxBytes)
      && 2 * maxPending < MAX_RETAINED_STATUSES && maxBytes < USIZE_MAX
    }

    constructor ForContentWrites()
      ensures Valid() && Contents() == Book([], 0, map[], [], {})
      ensures maxPending == MAX_PENDING_WRITES && maxBytes == MAX_PENDING_WRITE_BYTES
    {
      maxPending, maxBytes := MAX_PENDING_WRITES, MAX_PENDING_WRITE_BYTES;
      queue, pendingBytes, statuses, completed, drained := [], 0, map[], [], {};
    }

    constructor ForProjectionReads()
      ensures Valid() && Contents() == Book([], 0, map[], [], {})
      ensures maxPending == MAX_PENDING_PROJECTIONS && maxBytes == 0
    {
      maxPending, maxBytes := MAX_PENDING_PROJECTIONS, 0;
      queue, pendingBytes, statuses, completed, drained := [], 0, map[], [], {};
    }

    /** Accepts one operation. Only the oldest terminal status is ever evicted, and the status table is
        exhausted exactly when 256 operations are queued or drained: never while at most one batch is out. */
    method Submit(owner: ComponentRef, size: nat, id: Id) returns (r: Request)
      requires Valid()
      modifies this
      ensures Valid()
      ensures r.QueueFull? <==> Full(old(Contents()), maxPending, maxBytes, size) || Exhausted(old(Contents()))
      ensures |old(drained)| <= maxPending ==> (r.QueueFull? <==> Full(old(Contents()), maxPending, maxBytes, size))
      ensures r.QueueFull? ==> Contents() == old(Contents())
      ensures !r.QueueFull? ==> Evicted(old(Contents())) <= |old(completed)|
      ensures r.Accepted? ==>
        && queue == old(queue) + [Operation(id, size)] && pendingBytes == old(pendingBytes) + size && id in statuses
        && statuses[id] == OwnedStatus(owner, Pending)
      ensures r.IdTaken? ==> id in statuses && Contents() == AfterEviction(old(Contents()))
      ensures r.Accepted? ==> id !in AfterEviction(old(Contents())).statuses && r.id == id && Contents() == Queued(AfterEviction(old(Contents())), owner, Operation(id, size))
    {
      hide Conserved, AfterEviction, Queued;
      ghost var b := Contents();
      StatusesCount(b);
      var total := SaturatingAdd(pendingBytes, size);
      if |queue| >= maxPending || total > maxBytes {
        return QueueFull;
      }
      var trimmed := TrimStatuses(statuses, completed, MAX_RETAINED_STATUSES - 1);
      TrimIsEviction(b, trimmed);
      if trimmed.None? {
        return QueueFull;
      }
      EvictionConserves(b);
      statuses, completed := trimmed.value.statuses, trimmed.value.completed;
      if id in statuses {
        return IdTaken;
      }
      QueueingConserves(Contents(), owner, Operation(id, size));
      QueuedShape(Contents(), owner, Operation(id, size));
      statuses := statuses[id := OwnedStatus(owner, Pending)];
      pendingBytes := total;
      queue := queue + [Operation(id, size)];
      return Accepted(id);
    }

    /** Hands the whole queue to a pump. */
    method DrainPending() returns (batch: seq<Operation>)
      requires Valid()
      modifies this
      ensures Valid() && batch == old(queue) && Contents() == Drained(old(Contents()))
    {
      hide Conserved;
      DrainConserves(Contents());
      batch := queue;
      drained := drained + IdsOf(queue);
      queue, pendingBytes := [], 0;
    }

    /** Records a drained operation's outcome; the table cannot overflow here, so nothing is evicted. */
    method RecordOutcome(id: Id, status: Status) returns (ok: bool)
      requires Valid() && !status.Pending? && (id in statuses ==> id in drained)
      modifies this
      ensures Valid() && (ok <==> id in old(statuses))
      ensures Contents() == if ok then Recorded(old(Contents()), id, status) else old(Contents())
      ensures ok ==>
        && id in statuses && statuses[id] == OwnedStatus(old(statuses)[id].owner, status) && completed == old(completed) + [id]
        && forall other | other in old(statuses) && other != id :: other in statuses && statuses[other] == old(statuses)[other]
    {
      hide Conserved;
      if id !in statuses {
        return false;
      }
      RecordConserves(Contents(), id, status);
      statuses := statuses[id := statuses[id].(status := status)];
      completed := completed + [id];
      drained := drained - {id};
      var trimmed := TrimStatuses(statuses, completed, MAX_RETAINED_STATUSES);
      ok := trimmed.Some?;
      if ok {
        statuses, completed := trimmed.value.statuses, trimmed.value.completed;
      }
    }

    /** An operation is visible to its owner only. */
    method Inspect(owner: ComponentRef, id: Id) returns (status: Option<Status>)
      ensures forall s :: status == Some(s) <==> id in statuses && statuses[id] == OwnedStatus(owner, s)
    {
      if id !in statuses || statuses[id].owner != owner {
        return None;
      }
      return Some(statuses[id].status);
    }
  }

  /** The queue or its byte budget is full. */
  predicate Full(b: Book, maxPending: nat, maxBytes: nat, size: nat) {
    |b.queue| >= maxPending || b.pendingBytes + size > maxBytes
  }

  /** No terminal status is left to evict. */
  ghost predicate Exhausted(b: Book) {
    |b.queue| + |b.drained| >= MAX_RETAINED_STATUSES
  }

  // ---------- eviction ----------

  datatype Retained = Retained(statuses: map<Id, OwnedStatus>, completed: seq<Id>)

  /** Drops the oldest terminal statuses until at most `keep` statuses are left, if there are enough. */
  function Trim(r: Retained, keep: nat): Option<Retained>
    decreases |r.completed|
  {
    if |r.statuses| <= keep then Some(r)
    else if r.completed == [] then None
    else Trim(Retained(r.statuses - {r.completed[0]}, r.completed[1..]), keep)
  }

  method TrimStatuses(statuses: map<Id, OwnedStatus>, completed: seq<Id>, keep: nat) returns (r: Option<Retained>)
    ensures r == Trim(Retained(statuses, completed), keep)
  {
    var rest := Retained(statuses, completed);
    while |rest.statuses| > keep
      invariant Trim(rest, keep) == Trim(Retained(statuses, completed), keep)
      decreases |rest.completed|
    {
      if rest.completed == [] {
        return None;
      }
      rest := Retained(rest.statuses - {rest.completed[0]}, rest.completed[1..]);
    }
    return Some(rest);
  }

  /** At the limit one eviction is enough, and there is one unless every status is queued or drained. */
  lemma TrimIsEviction(b: Book, trimmed: Option<Retained>)
    requires Conserved(b) && |b.statuses| <= MAX_RETAINED_STATUSES
    requires trimmed == Trim(Retained(b.statuses, b.completed), MAX_RETAINED_STATUSES - 1)
    ensures trimmed.None? <==> Exhausted(b)
    ensures trimmed.Some? ==> Evicted(b) <= |b.completed|
    ensures trimmed.Some? ==> AfterEviction(b) == b.(statuses := trimmed.value.statuses, completed := trimmed.value.completed)
  {
    hide Conserved;
    StatusesCount(b);
    if Evicted(b) == 1 && |b.completed| > 0 {
      EvictionConserves(b);
    }
  }

  lemma QueuedShape(b: Book, owner: ComponentRef, op: Operation)
    ensures Queued(b, owner, op) == b.(queue := b.queue + [op], pendingBytes := b.pendingBytes + op.size,
                                       statuses := b.statuses[op.id := OwnedStatus(owner, Pending)])
  {
  }

  // ---------- pumps ----------

  /** Some number of requests by components. */
  method AnyRequests() returns (script: seq<(ComponentRef, nat, Id)>)
  {
    script := *;
  }

  /** Some terminal outcome of one operation. */
  method AnyOutcome() returns (status: Status)
    ensures !status.Pending?
  {
    var ok: bool, text: string := *, *;
    return if ok then Succeeded(text) else Failed(text);
  }

  /** Requests that arrive while a batch is being handled leave the batch's own statuses alone. */
  method OtherRequests(control: OperationControl)
    requires control.Valid()
    modifies control
    ensures control.Valid() && control.drained == old(control.drained)
    ensures KeepsSettled(old(control.Contents()), control.Contents())
  {
    hide OperationControl.Valid, KeepsSettled, Conserved, AfterEviction, Queued, Full, Exhausted;
    ValidBook(control);
    var script := AnyRequests();
    NothingSettles(control.Contents());
    for i := 0 to |script|
      invariant control.Valid() && control.drained == old(control.drained)
      invariant KeepsSettled(old(control.Contents()), control.Contents())
    {
      ghost var b := control.Contents();
      ValidBook(control);
      var r := control.Submit(script[i].0, script[i].1, script[i].2);
      SubmitKeepsSettled(old(control.Contents()), b, r, script[i].0, Operation(script[i].2, script[i].1), control.Contents());
    }
  }

  lemma ValidBook(control: OperationControl)
    requires control.Valid()
    ensures Conserved(control.Contents()) && |control.statuses| <= MAX_RETAINED_STATUSES && |control.queue| <= control.maxPending
  {
  }

  /** No status of a drained operation changes, and no terminal status becomes pending again except under an id
      that was evicted before. */
  ghost predicate KeepsSettled(b: Book, n: Book) {
    && n.drained == b.drained
    && (forall id | id in b.drained :: id in n.statuses && id in b.statuses && n.statuses[id] == b.statuses[id])
  }

  lemma NothingSettles(b: Book)
    requires Conserved(b)
    ensures KeepsSettled(b, b)
  {
  }

  lemma SubmitKeepsSettled(first: Book, b: Book, r: Request, owner: ComponentRef, op: Operation, n: Book)
    requires KeepsSettled(first, b) && Conserved(b)
    requires r.QueueFull? ==> n == b
    requires !r.QueueFull? ==> Evicted(b) <= |b.completed|
    requires r.IdTaken? ==> n == AfterEviction(b)
    requires r.Accepted? ==> n == Queued(AfterEviction(b), owner, op) && op.id !in AfterEviction(b).statuses
    ensures KeepsSettled(first, n) && n.drained == b.drained
  {
    hide Tally, IdsOf, Unique, Distinct;
    if !r.QueueFull? && Evicted(b) == 1 {
      assert b.completed[0] in Elements(b.completed);
    }
  }

  /** One pump: drains the queue and records every operation of the batch, while requests keep arriving. When the
      home cannot be opened the batch is lost: its operations stay pending forever. */
  method Pump(control: OperationControl, homeOpens: bool) returns (ok: bool)
    requires control.Valid()
    modifies control
    ensures control.Valid()
    ensures old(control.queue) == [] ==> ok && control.Contents() == Drained(old(control.Contents()))
    ensures old(control.queue) != [] ==> ok == homeOpens
    ensures ok ==> control.drained == old(control.drained)
    ensures !ok ==> control.Contents() == Drained(old(control.Contents()))
  {
    hide OperationControl.Valid, Conserved, Unique, IdsOf;
    ValidBook(control);
    ghost var before := control.drained;
    BatchIsDrained(control.Contents());
    NothingDrained(before);
    var batch := control.DrainPending();
    if batch == [] {
      return true;
    }
    if !homeOpens {
      return false;
    }
    assert batch[0..] == batch;
    for i := 0 to |batch|
      invariant control.Valid() && control.drained == before + IdsOf(batch[i..])
    {
      NextOfBatch(batch, i, before);
      HandleOne(control, batch[i].id);
    }
    assert batch[|batch|..] == [];
    return true;
  }

  /** Carries out one drained operation and records how it ended. */
  method HandleOne(control: OperationControl, id: Id)
    requires control.Valid() && id in control.drained
    modifies control
    ensures control.Valid() && control.drained == old(control.drained) - {id}
    ensures id in control.statuses && !control.statuses[id].status.Pending?
  {
    hide OperationControl.Valid, KeepsSettled, Conserved;
    OtherRequests(control);
    var status := AnyOutcome();
    ValidBook(control);
    DrainedIsKnown(control.Contents(), id);
    var recorded := control.RecordOutcome(id, status);
  }

  lemma BatchIsDrained(b: Book)
    requires Conserved(b)
    ensures Unique(b.queue, IdOf) && IdsOf(b.queue) !! b.drained
  {
  }

  lemma NothingDrained(before: set<Id>)
    ensures before + IdsOf([]) == before
  {
    assert IdsOf([]) == {};
  }

  lemma DrainedIsKnown(b: Book, id: Id)
    requires Conserved(b) && id in b.drained
    ensures id in b.statuses
  {
  }

  lemma NextOfBatch(batch: seq<Operation>, i: nat, before: set<Id>)
    requires i < |batch| && Unique(batch, IdOf) && IdsOf(batch) !! before
    ensures batch[i].id in before + IdsOf(batch[i..])
    ensures (before + IdsOf(batch[i..])) - {batch[i].id} == before + IdsOf(batch[i + 1..])
  {
    var rest := batch[i + 1..];
    assert batch[i..] == [batch[i]] + rest;
    forall k | 0 <= k < |rest| ensures rest[k].id != batch[i].id {
      assert rest[k] == batch[i + 1 + k] && IdOf(batch[i]) != IdOf(batch[i + 1 + k]);
    }
    assert IdsOf(batch[i..]) == {batch[i].id} + IdsOf(rest);
    assert batch[i].id in IdsOf(batch);
  }

  /** A lost batch is never given back: draining does not relieve the status table, only recording does. */
  lemma LostBatchesAccumulate(b: Book)
    requires Conserved(b)
    ensures |Drained(b).drained| == |b.drained| + |b.queue|
    ensures Exhausted(Drained(b)) <==> Exhausted(b)
  {
    hide Tally;
    QueueCount(b.queue);
  }
}
