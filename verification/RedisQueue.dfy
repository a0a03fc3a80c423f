/** The schedule-run queue: a Redis main list, a processing list, and lease and owner
    hashes; and the in-memory FIFO it stands in for. */
module RedisQueue {
  import opened Options

  /** A queued job. The program draws a fresh `jobId` for each; the text stored in Redis
      is a canonical rendering of these three fields. */
  datatype Payload = Payload(jobId: nat, runId: Id, organizationId: Option<Id>)

  /** The lease hash holds a time in seconds; other text is unreadable. */
  datatype Lease = At(seconds: int) | Unreadable

  /** The four Redis keys. Lists are written with their left end first. */
  datatype Store = Store(
    main: seq<Payload>,
    processing: seq<Payload>,
    leases: map<Payload, Lease>,
    owners: map<Payload, Id>)

  function EmptyStore(): Store { Store([], [], map[], map[]) }

  // ----- single Redis commands -----

  function LpushMain(s: Store, p: Payload): Store { s.(main := [p] + s.main) }

  function RpushMain(s: Store, p: Payload): Store { s.(main := s.main + [p]) }

  /** Moves the right end of the main list to the left end of the processing list. */
  function Brpoplpush(s: Store): Store
    requires s.main != []
  {
    s.(main := s.main[..|s.main| - 1], processing := [s.main[|s.main| - 1]] + s.processing)
  }

  /** Drops the first occurrence. */
  function RemoveFirst(ps: seq<Payload>, p: Payload): seq<Payload>
  {
    if ps == [] then []
    else if ps[0] == p then ps[1..]
    else [ps[0]] + RemoveFirst(ps[1..], p)
  }

  function LremProcessing(s: Store, p: Payload): Store { s.(processing := RemoveFirst(s.processing, p)) }

  function HsetLease(s: Store, p: Payload, l: Lease): Store { s.(leases := s.leases[p := l]) }

  function HsetOwner(s: Store, p: Payload, w: Id): Store { s.(owners := s.owners[p := w]) }

  function HdelLease(s: Store, p: Payload): Store { s.(leases := s.leases - {p}) }

  function HdelOwner(s: Store, p: Payload): Store { s.(owners := s.owners - {p}) }

  /** A delivery may be taken back when its lease is missing, unreadable or old enough. */
  predicate Recoverable(s: Store, p: Payload, now: int, leaseSeconds: int)
  {
    p !in s.leases || s.leases[p].Unreadable? || now - s.leases[p].seconds >= leaseSeconds
  }

  // ----- whole operations, run alone -----

  function Dequeued(s: Store, now: int, worker: Id): Store
    requires s.main != []
  {
    var p := s.main[|s.main| - 1];
    HsetOwner(HsetLease(Brpoplpush(s), p, At(now)), p, worker)
  }

  function Acked(s: Store, p: Payload): Store { HdelOwner(HdelLease(LremProcessing(s, p), p), p) }

  function TakenBack(s: Store, p: Payload): Store { RpushMain(Acked(s, p), p) }

  /** One recovery pass over a snapshot of the processing list. */
  function Recovered(s: Store, snapshot: seq<Payload>, now: int, leaseSeconds: int): Store
    decreases |snapshot|
  {
    if snapshot == [] then s
    else
      var p := snapshot[0];
      var next := if Recoverable(s, p, now, leaseSeconds) && p in s.processing then TakenBack(s, p) else s;
      Recovered(next, snapshot[1..], now, leaseSeconds)
  }

  /** How many deliveries that pass takes back. */
  function RecoveredCount(s: Store, snapshot: seq<Payload>, now: int, leaseSeconds: int): nat
    decreases |snapshot|
  {
    if snapshot == [] then 0
    else
      var p := snapshot[0];
      if Recoverable(s, p, now, leaseSeconds) && p in s.processing
      then 1 + RecoveredCount(TakenBack(s, p), snapshot[1..], now, leaseSeconds)
      else RecoveredCount(s, snapshot[1..], now, leaseSeconds)
  }

  function Prefix(ps: seq<Payload>, limit: nat): seq<Payload>
  {
    if limit <= |ps| then ps[..limit] else ps
  }

  // ----- job ids -----

  predicate Mentioned(s: Store, p: Payload)
  {
    p in s.main || p in s.processing || p in s.leases || p in s.owners
  }

  /** Every payload anywhere in the four keys has a job id below `n`. */
  ghost predicate IdsBelow(s: Store, n: nat) { forall p :: Mentioned(s, p) ==> p.jobId < n }

  lemma DequeueKeepsIds(s: Store, n: nat, now: int, worker: Id)
    requires IdsBelow(s, n) && s.main != []
    ensures IdsBelow(Dequeued(s, now, worker), n)
  {
    var t, p := Dequeued(s, now, worker), s.main[|s.main| - 1];
    assert Mentioned(s, p);
    forall x | Mentioned(t, x) ensures x.jobId < n {
      assert x == p || Mentioned(s, x);
    }
  }

  lemma RemovalKeepsIds(s: Store, n: nat, p: Payload)
    requires IdsBelow(s, n)
    ensures IdsBelow(LremProcessing(s, p), n) && IdsBelow(Acked(s, p), n)
  {
    RemoveFirstKeeps(s.processing, p);
    forall x | Mentioned(LremProcessing(s, p), x) || Mentioned(Acked(s, p), x) ensures x.jobId < n {
      assert Mentioned(s, x);
    }
  }

  lemma TakeBackKeepsIds(s: Store, n: nat, p: Payload)
    requires IdsBelow(s, n) && p in s.processing
    ensures IdsBelow(TakenBack(s, p), n)
  {
    RemovalKeepsIds(s, n, p);
    assert Mentioned(s, p);
    forall x | Mentioned(TakenBack(s, p), x) ensures x.jobId < n {
      assert x == p || Mentioned(Acked(s, p), x);
    }
  }

  // ----- the Redis queue object -----

  class RedisScheduleRunQueue {
    var store: Store
    var nextJobId: nat
    const leaseSeconds: int
    const workerId: Id

    /** Job ids are drawn in increasing order, so the next one is nowhere in the store. */
    ghost predicate Valid()
      reads this
    {
      IdsBelow(store, nextJobId)
    }

    constructor (leaseSeconds: int, workerId: Id)
      ensures Valid() && store == EmptyStore() && nextJobId == 0
      ensures this.leaseSeconds == leaseSeconds && this.workerId == workerId
    {
      store, nextJobId := EmptyStore(), 0;
      this.leaseSeconds, this.workerId := leaseSeconds, workerId;
    }

    method Enqueue(runId: Id, organizationId: Option<Id>)
      requires Valid()
      modifies this
      ensures Valid()
      ensures store == LpushMain(old(store), Payload(old(nextJobId), runId, organizationId))
      ensures forall p :: Mentioned(old(store), p) ==> p.jobId != old(nextJobId)
      ensures nextJobId == old(nextJobId) + 1
    {
      store := LpushMain(store, Payload(nextJobId, runId, organizationId));
      nextJobId := nextJobId + 1;
      assert Valid() by {
        forall p | Mentioned(store, p) ensures p.jobId < nextJobId {
          assert p.jobId == old(nextJobId) || Mentioned(old(store), p);
        }
      }
    }

    method Dequeue(now: int) returns (job: Option<Payload>)
      requires Valid()
      modifies this`store
      ensures Valid()
      ensures old(store).main == [] ==> job == None && store == old(store)
      ensures old(store).main != [] ==>
        && job == Some(old(store).main[|old(store).main| - 1])
        && store == Dequeued(old(store), now, workerId)
    {
      if store.main == [] {
        return None;
      }
      DequeueKeepsIds(store, nextJobId, now, workerId);
      var p := store.main[|store.main| - 1];
      store := Brpoplpush(store);
      store := HsetLease(store, p, At(now));
      store := HsetOwner(store, p, workerId);
      job := Some(p);
    }

    method Ack(p: Payload)
      requires Valid()
      modifies this`store
      ensures Valid()
      ensures store == Acked(old(store), p)
    {
      RemovalKeepsIds(store, nextJobId, p);
      store := LremProcessing(store, p);
      store := HdelLease(store, p);
      store := HdelOwner(store, p);
    }

    method RecoverInProgress(now: int, limit: nat) returns (recoveredCount: nat)
      requires Valid()
      modifies this`store
      ensures Valid()
      ensures store == Recovered(old(store), Prefix(old(store).processing, limit), now, leaseSeconds)
      ensures recoveredCount == RecoveredCount(old(store), Prefix(old(store).processing, limit), now, leaseSeconds)
    {
      recoveredCount := 0;
      var snapshot := Prefix(store.processing, limit);
      for i := 0 to |snapshot|
        invariant Valid()
        invariant Recovered(store, snapshot[i..], now, leaseSeconds)
          == Recovered(old(store), snapshot, now, leaseSeconds)
        invariant recoveredCount + RecoveredCount(store, snapshot[i..], now, leaseSeconds)
          == RecoveredCount(old(store), snapshot, now, leaseSeconds)
      {
        var p := snapshot[i];
        assert snapshot[i..][0] == p && snapshot[i..][1..] == snapshot[i + 1..];
        if Recoverable(store, p, now, leaseSeconds) {
          var before := |store.processing|;
          RemoveFirstLength(store.processing, p);
          RemovalKeepsIds(store, nextJobId, p);
          if p in store.processing {
            TakeBackKeepsIds(store, nextJobId, p);
          }
          store := LremProcessing(store, p);
          if |store.processing| < before {
            store := HdelLease(store, p);
            store := HdelOwner(store, p);
            store := RpushMain(store, p);
            recoveredCount := recoveredCount + 1;
          }
        }
      }
      assert snapshot[|snapshot|..] == [];
    }
  }

  lemma {:induction false} RemoveFirstKeeps(ps: seq<Payload>, p: Payload)
    ensures forall x :: x in RemoveFirst(ps, p) ==> x in ps
  {
    if ps != [] && ps[0] != p {
      RemoveFirstKeeps(ps[1..], p);
    }
  }

  lemma {:induction false} RemoveFirstLength(ps: seq<Payload>, p: Payload)
    ensures p in ps ==> |RemoveFirst(ps, p)| == |ps| - 1
    ensures p !in ps ==> RemoveFirst(ps, p) == ps
    ensures multiset(RemoveFirst(ps, p)) == multiset(ps) - multiset{p}
  {
    if ps != [] {
      assert ps == [ps[0]] + ps[1..];
      if ps[0] != p {
        RemoveFirstLength(ps[1..], p);
      }
    }
  }

  // ----- the in-memory queue -----

  class InMemoryScheduleRunQueue {
    var items: seq<Payload>

    constructor ()
      ensures items == []
    {
      items := [];
    }

    method Enqueue(p: Payload)
      modifies this
      ensures items == old(items) + [p]
    {
      items := items + [p];
    }

    method Dequeue() returns (job: Option<Payload>)
      modifies this
      ensures old(items) == [] ==> job == None && items == []
      ensures old(items) != [] ==> job == Some(old(items)[0]) && items == old(items)[1..]
    {
      if items == [] {
        return None;
      }
      job := Some(items[0]);
      items := items[1..];
    }
  }

  // ----- the Redis queue delivers like the in-memory FIFO -----

  datatype Operation = Enq(p: Payload) | Deq(now: int, worker: Id) | AckOf(p: Payload)

  function RedisDeliveries(s: Store, ops: seq<Operation>): seq<Option<Payload>>
    decreases |ops|
  {
    if ops == [] then []
    else
      match ops[0]
      case Enq(p) => RedisDeliveries(LpushMain(s, p), ops[1..])
      case AckOf(p) => RedisDeliveries(Acked(s, p), ops[1..])
      case Deq(now, w) =>
        if s.main == [] then [None] + RedisDeliveries(s, ops[1..])
        else [Some(s.main[|s.main| - 1])] + RedisDeliveries(Dequeued(s, now, w), ops[1..])
  }

  function MemoryDeliveries(items: seq<Payload>, ops: seq<Operation>): seq<Option<Payload>>
    decreases |ops|
  {
    if ops == [] then []
    else
      match ops[0]
      case Enq(p) => MemoryDeliveries(items + [p], ops[1..])
      case AckOf(p) => MemoryDeliveries(items, ops[1..])
      case Deq(now, w) =>
        if items == [] then [None] + MemoryDeliveries(items, ops[1..])
        else [Some(items[0])] + MemoryDeliveries(items[1..], ops[1..])
  }

  /** The main list read from its right end. */
  function OldestFirst(ps: seq<Payload>): seq<Payload>
  {
    if ps == [] then [] else OldestFirst(ps[1..]) + [ps[0]]
  }

  lemma {:induction false} OldestFirstDrop(ps: seq<Payload>)
    requires ps != []
    ensures OldestFirst(ps) == [ps[|ps| - 1]] + OldestFirst(ps[..|ps| - 1])
  {
    if |ps| > 1 {
      OldestFirstDrop(ps[1..]);
      assert ps[1..][..|ps| - 2] == ps[..|ps| - 1][1..];
    }
  }

  /** Over any sequence of enqueues, dequeues and acknowledgements, the Redis queue hands
      out the same jobs in the same order as the FIFO. */
  lemma {:induction false} RedisRefinesFifo(s: Store, items: seq<Payload>, ops: seq<Operation>)
    requires items == OldestFirst(s.main)
    ensures RedisDeliveries(s, ops) == MemoryDeliveries(items, ops)
    decreases |ops|
  {
    if ops != [] {
      match ops[0] {
        case Enq(p) =>
          assert ([p] + s.main)[1..] == s.main;
          RedisRefinesFifo(LpushMain(s, p), items + [p], ops[1..]);
        case AckOf(p) =>
          RedisRefinesFifo(Acked(s, p), items, ops[1..]);
        case Deq(now, w) =>
          if s.main == [] {
            RedisRefinesFifo(s, items, ops[1..]);
          } else {
            OldestFirstDrop(s.main);
            assert items[1..] == OldestFirst(s.main[..|s.main| - 1]);
            RedisRefinesFifo(Dequeued(s, now, w), items[1..], ops[1..]);
          }
      }
    }
  }

  // ----- recovery undoes delivery -----

  /** `k` dequeues in a row. */
  function DequeuedTimes(s: Store, k: nat, now: int, worker: Id): Store
    requires k <= |s.main|
    ensures |DequeuedTimes(s, k, now, worker).main| == |s.main| - k
  {
    if k == 0 then s else Dequeued(DequeuedTimes(s, k - 1, now, worker), now, worker)
  }

  lemma DequeueMovesLast(s: Store, now: int, worker: Id)
    requires s.main != []
    ensures Dequeued(s, now, worker).main == s.main[..|s.main| - 1]
    ensures Dequeued(s, now, worker).processing == [s.main[|s.main| - 1]] + s.processing
  {
  }

  lemma SplitAt(ps: seq<Payload>, i: nat)
    requires i < |ps|
    ensures ps[..i + 1][..i] == ps[..i] && ps[..i + 1][i] == ps[i]
    ensures ps[i..] == [ps[i]] + ps[i + 1..]
  {
  }

  lemma {:induction false} DequeuesSplitMain(s: Store, k: nat, now: int, worker: Id)
    requires k <= |s.main| && s.processing == []
    ensures DequeuedTimes(s, k, now, worker).main == s.main[..|s.main| - k]
    ensures DequeuedTimes(s, k, now, worker).processing == s.main[|s.main| - k..]
  {
    if k > 0 {
      var before, i := DequeuedTimes(s, k - 1, now, worker), |s.main| - k;
      DequeuesSplitMain(s, k - 1, now, worker);
      DequeueMovesLast(before, now, worker);
      assert before.main == s.main[..i + 1] && before.processing == s.main[i + 1..];
      SplitAt(s.main, i);
    }
  }

  lemma {:induction false} DequeuesWriteLeases(s: Store, k: nat, now: int, worker: Id, p: Payload)
    requires k <= |s.main| && s.processing == []
    requires p in DequeuedTimes(s, k, now, worker).processing
    ensures p in DequeuedTimes(s, k, now, worker).leases
    ensures DequeuedTimes(s, k, now, worker).leases[p] == At(now)
  {
    if k > 0 {
      var before := DequeuedTimes(s, k - 1, now, worker);
      if p in before.processing {
        DequeuesWriteLeases(s, k - 1, now, worker, p);
      }
    }
  }

  lemma TakeBackFirst(s: Store, p: Payload, rest: seq<Payload>)
    requires s.processing == [p] + rest
    ensures p in s.processing
    ensures TakenBack(s, p).main == s.main + [p] && TakenBack(s, p).processing == rest
    ensures TakenBack(s, p).leases == s.leases - {p}
  {
    assert s.processing[0] == p && s.processing[1..] == rest;
  }

  /** Taking back the deliveries of a snapshot that heads the processing list returns them
      to the right end of the main list in the order they had. */
  lemma {:induction false} RecoverHead(s: Store, snapshot: seq<Payload>, rest: seq<Payload>, now: int,
                                       leaseSeconds: int)
    requires s.processing == snapshot + rest
    requires forall p :: p in snapshot ==> Recoverable(s, p, now, leaseSeconds)
    ensures Recovered(s, snapshot, now, leaseSeconds).main == s.main + snapshot
    ensures Recovered(s, snapshot, now, leaseSeconds).processing == rest
    ensures RecoveredCount(s, snapshot, now, leaseSeconds) == |snapshot|
    decreases |snapshot|
  {
    if snapshot == [] {
      assert s.main + snapshot == s.main;
    } else {
      var p, later, next := snapshot[0], snapshot[1..], TakenBack(s, snapshot[0]);
      assert snapshot == [p] + later;
      TakeBackFirst(s, p, later + rest);
      forall x | x in later ensures Recoverable(next, x, now, leaseSeconds) {
        assert Recoverable(s, x, now, leaseSeconds);
      }
      RecoverHead(next, later, rest, now, leaseSeconds);
      assert (s.main + [p]) + later == s.main + snapshot;
    }
  }

  /** What `k` deliveries from `main`, starting with nothing in processing, leave behind
      when the worker dies at any point and every lease is missing or old. */
  ghost predicate CrashedAfter(main: seq<Payload>, k: nat, crashed: Store, now: int, leaseSeconds: int)
    requires k <= |main|
  {
    && crashed.main == main[..|main| - k]
    && crashed.processing == main[|main| - k..]
    && forall p :: p in crashed.processing ==> Recoverable(crashed, p, now, leaseSeconds)
  }

  lemma DequeuesThenCrash(s: Store, k: nat, dequeuedAt: int, now: int, worker: Id, leaseSeconds: int)
    requires s.processing == [] && k <= |s.main|
    requires now - dequeuedAt >= leaseSeconds
    ensures CrashedAfter(s.main, k, DequeuedTimes(s, k, dequeuedAt, worker), now, leaseSeconds)
  {
    DequeuesSplitMain(s, k, dequeuedAt, worker);
    var crashed := DequeuedTimes(s, k, dequeuedAt, worker);
    forall p | p in crashed.processing ensures Recoverable(crashed, p, now, leaseSeconds) {
      DequeuesWriteLeases(s, k, dequeuedAt, worker, p);
    }
  }

  /** One recovery pass after a crash puts the most recent `limit` deliveries back in
      order. The main list is exactly what it was if and only if no more than `limit` jobs
      had been delivered; otherwise the oldest ones stay in processing. */
  lemma RecoveryUndoesDelivery(main: seq<Payload>, k: nat, crashed: Store, limit: nat, now: int, leaseSeconds: int)
    requires k <= |main| && CrashedAfter(main, k, crashed, now, leaseSeconds)
    ensures
      var after := Recovered(crashed, Prefix(crashed.processing, limit), now, leaseSeconds);
      && (after.main == main <==> k <= limit)
      && after.main + after.processing == main
      && |after.processing| == (if k <= limit then 0 else k - limit)
  {
    var i := |main| - k;
    var delivered := main[i..];
    var snapshot := Prefix(delivered, limit);
    var rest := delivered[|snapshot|..];
    assert delivered == snapshot + rest;
    RecoverHead(crashed, snapshot, rest, now, leaseSeconds);
    assert main[..i] + snapshot + rest == main[..i] + delivered == main;
  }
}
