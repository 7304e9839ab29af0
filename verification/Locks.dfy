/** Locks over the key/value store: a lock is a key that is created by a compare-and-swap, held by
    a lease, and kept alive by the clock. */
module Locks {
  import opened Options
  import opened Text
  import opened KeyRange
  import opened Mvcc
  import opened EtcdSpec
  import opened EtcdProofs
  import opened Stores
  import opened Etcd

  type LeaseId = nat

  /** The store together with the leases, each with its lock key. */
  datatype State = State(db: Db, leases: map<LeaseId, Str>, nextLease: LeaseId)

  function LockTxn(key: Str): TxnRequest {
    TxnRequest([Clause(key, CreateTarget, Equal, 0, [])], [PutOp(PutOptions(key, Some([]), false, false))], [])
  }

  /** Acquires the lock if its key does not exist; a refused transaction makes no lease. */
  ghost function Acquire(s: State, key: Str): (State, bool) {
    var (db, r) := Txn(s.db, LockTxn(key));
    if r.Ok? && r.value.succeeded then (State(db, s.leases[s.nextLease := key], s.nextLease + 1), true)
    else (State(db, s.leases, s.nextLease + 1), false)
  }

  /** Ends a lease, by revocation or by expiry, and deletes its key if it is there. */
  ghost function Revoke(s: State, id: LeaseId): State {
    if id !in s.leases then s
    else
      var key := s.leases[id];
      s.(leases := s.leases - {id},
         db := if key in Current(s.db.log) then Delete(s.db, [], DeleteOptions(key, [], false)).0 else s.db)
  }

  /** A step of the locks, or a request of somebody else. */
  datatype Step = DoAcquire(key: Str) | DoRevoke(id: LeaseId) | Elsewhere(request: Request)

  /** Whether a request may write a key. */
  predicate MayWrite(request: Request, key: Str) {
    match request
    case PutRequest(namespace, o) => key == NamespacedKey(namespace, o.key)
    case DeleteRequest(namespace, o) => IsKeyInRange(key, NamespacedKey(namespace, o.key), NamespacedRangeEnd(namespace, o.rangeEnd))
    case TxnCall(t) => (exists op :: op in t.success && InWrite(op, key)) || (exists op :: op in t.failure && InWrite(op, key))
    case CompactRequest(_) => false
  }

  ghost function Apply(s: State, step: Step): State {
    match step
    case DoAcquire(key) => Acquire(s, key).0
    case DoRevoke(id) => Revoke(s, id)
    case Elsewhere(request) => s.(db := Serve(s.db, request))
  }

  /** Only lock operations write lock keys. */
  predicate Fair(locks: set<Str>, step: Step) {
    match step
    case DoAcquire(key) => key in locks
    case DoRevoke(_) => true
    case Elsewhere(request) => forall key :: key in locks ==> !MayWrite(request, key)
  }

  predicate HeldBy(s: State, key: Str, id: LeaseId) {
    id in s.leases && s.leases[id] == key
  }

  /** At most one lease holds a lock key, and the key exists exactly when one does. */
  ghost predicate Exclusive(s: State, locks: set<Str>) {
    && DbOk(s.db)
    && (forall id :: id in s.leases ==> id < s.nextLease && s.leases[id] in locks)
    && (forall a, b :: a in s.leases && b in s.leases && s.leases[a] == s.leases[b] ==> a == b)
    && (forall key :: key in locks ==> (key in Current(s.db.log) <==> exists id :: HeldBy(s, key, id)))
  }

  /** A live key was created at a positive revision. */
  lemma CreatedPositive(log: Log, key: Str)
    requires WellFormed(log) && key in Current(log)
    ensures Current(log)[key].createRevision > 0
  {
    LiveMatchesHistory(log, key);
    HistoryIncreasing(log, key);
    FirstPositive(History(log, key), 0);
  }

  lemma {:induction false} FirstPositive(h: seq<Record>, none: nat)
    requires h != [] && !h[|h| - 1].deleted && forall i :: 0 <= i < |h| ==> h[i].modRevision > 0
    ensures FirstSinceDelete(h, none) > 0
  {
    var init := h[..|h| - 1];
    if init != [] && !init[|init| - 1].deleted {
      FirstPositive(init, h[|h| - 1].modRevision);
    }
  }

  /** The compare-and-swap on the creation revision asks whether the key is absent. */
  lemma ClauseMeansAbsent(log: Log, key: Str)
    requires WellFormed(log)
    ensures Holds(Lookup(Current(log), key), Clause(key, CreateTarget, Equal, 0, [])) <==> key !in Current(log)
  {
    if key in Current(log) {
      CreatedPositive(log, key);
    }
  }

  /** Acquiring succeeds exactly when the key does not exist, and then the key exists. */
  lemma AcquireExactly(s: State, key: Str)
    requires DbOk(s.db) && key != []
    ensures var (after, got) := Acquire(s, key);
            && (got <==> key !in Current(s.db.log))
            && (got ==> forall other: Str :: other in Current(after.db.log) <==> other == key || other in Current(s.db.log))
            && (!got ==> after.db == s.db)
  {
    var clause := Clause(key, CreateTarget, Equal, 0, []);
    var op := PutOp(PutOptions(key, Some([]), false, false));
    assert WellFormed(s.db.log);
    hide Txn, Current, RunOp, DbOk, Holds, Lookup, WellFormed, Bump;
    ClauseMeansAbsent(s.db.log, key);
    SwapTxn(s.db, clause, op);
    if key !in Current(s.db.log) {
      PutNewKey(s.db, key);
    }
  }

  lemma PutNewKey(db: Db, key: Str)
    requires key != [] && key !in Current(db.log)
    ensures var (after, r) := RunOp(Bump(db), PutOp(PutOptions(key, Some([]), false, false)), db.revision + 1);
            r.Ok? && forall other: Str :: other in Current(after.log) <==> other == key || other in Current(db.log)
  {
    assert NamespacedKey([], key) == key;
    var e := PutEntry(None, key, PutOptions(key, Some([]), false, false), db.revision + 1);
    Extend(db.log, e, key, 0);
  }

  lemma RevokeExactly(s: State, id: LeaseId)
    requires DbOk(s.db) && id in s.leases && s.leases[id] != []
    ensures var after := Revoke(s, id);
            && DbOk(after.db)
            && forall other: Str :: other in Current(after.db.log) <==> other in Current(s.db.log) && other != s.leases[id]
  {
    var key := s.leases[id];
    if key in Current(s.db.log) {
      DeleteKeepsOk(s.db, [], DeleteOptions(key, [], false));
      assert NamespacedKey([], key) == key && NamespacedRangeEnd([], []) == [];
    }
  }

  lemma PutElsewhere(db: Db, namespace: Str, o: PutOptions, key: Str)
    requires key != NamespacedKey(namespace, o.key)
    ensures key in Current(Put(db, namespace, o).0.log) <==> key in Current(db.log)
  {
    var after := Put(db, namespace, o).0;
    if after.log != db.log {
      var e := after.log[|db.log|];
      assert after.log == db.log + [e] && e.Key() == NamespacedKey(namespace, o.key);
      Extend(db.log, e, key, 0);
    }
  }

  lemma TxnElsewhere(db: Db, t: TxnRequest, key: Str)
    requires DbOk(db) && !MayWrite(TxnCall(t), key)
    ensures key in Current(Txn(db, t).0.log) <==> key in Current(db.log)
  {
    hide DbOk, RunOps, WriteRangesValid, Current, History;
    var ops, after := Chosen(db, t), Txn(db, t).0;
    TxnKeepsOk(db, t);
    if WriteRangesValid(ops) {
      BumpKeepsOk(db);
      var start := TxnStart(db, ops);
      forall i | 0 <= i < |ops|
        ensures !InWrite(ops[i], key)
      {
        assert ops[i] in ops;
      }
      RunOpsKeepsOk(start, ops, start.revision);
      assert History(after.log, key) == History(db.log, key);
      SoundLog(db);
      SoundLog(after);
      LiveMatchesHistory(db.log, key);
      LiveMatchesHistory(after.log, key);
    }
  }

  lemma SoundLog(db: Db)
    requires DbOk(db)
    ensures WellFormed(db.log)
  {
  }

  /** A request that does not write a key leaves it there, or away. */
  lemma ElsewhereLeaves(db: Db, request: Request, key: Str)
    requires DbOk(db) && !MayWrite(request, key)
    ensures DbOk(Serve(db, request)) && (key in Current(Serve(db, request).log) <==> key in Current(db.log))
  {
    hide DbOk, Current, Txn, Put, Delete;
    ServeExtends(db, request);
    match request {
      case PutRequest(namespace, o) => PutElsewhere(db, namespace, o, key);
      case DeleteRequest(namespace, o) => DeleteElsewhere(db, namespace, o, key);
      case TxnCall(t) => TxnElsewhere(db, t, key);
      case CompactRequest(revision) =>
    }
  }

  lemma DeleteElsewhere(db: Db, namespace: Str, o: DeleteOptions, key: Str)
    requires DbOk(db) && !IsKeyInRange(key, NamespacedKey(namespace, o.key), NamespacedRangeEnd(namespace, o.rangeEnd))
    ensures key in Current(Delete(db, namespace, o).0.log) <==> key in Current(db.log)
  {
    hide DbOk, Current, IsKeyInRange, ApplyDelete, Doomed;
    DeleteKeepsOk(db, namespace, o);
  }

  lemma StepKeeps(s: State, locks: set<Str>, step: Step)
    requires Exclusive(s, locks) && [] !in locks && Fair(locks, step)
    ensures Exclusive(Apply(s, step), locks)
  {
    hide DbOk, Current, Txn, Delete, Serve;
    var after := Apply(s, step);
    match step {
      case DoAcquire(key) =>
        AcquireExactly(s, key);
        AcquireKeepsOk(s, key);
        AcquireKeeps(s, locks, key);
      case DoRevoke(id) =>
        if id in s.leases {
          RevokeExactly(s, id);
          RevokeKeeps(s, locks, id);
        }
      case Elsewhere(request) =>
        ServeExtends(s.db, request);
        forall key | key in locks
          ensures key in Current(after.db.log) <==> exists id :: HeldBy(after, key, id)
        {
          ElsewhereLeaves(s.db, request, key);
          assert forall id :: HeldBy(after, key, id) <==> HeldBy(s, key, id);
        }
    }
  }

  lemma AcquireKeepsOk(s: State, key: Str)
    requires DbOk(s.db)
    ensures DbOk(Acquire(s, key).0.db)
  {
    TxnKeepsOk(s.db, LockTxn(key));
    hide Txn, DbOk;
  }

  lemma AcquireKeeps(s: State, locks: set<Str>, key: Str)
    requires Exclusive(s, locks) && key in locks
    requires var (after, got) := Acquire(s, key);
             && DbOk(after.db)
             && (got <==> key !in Current(s.db.log))
             && (got ==> forall other: Str :: other in Current(after.db.log) <==> other == key || other in Current(s.db.log))
             && (!got ==> after.db == s.db)
    ensures Exclusive(Acquire(s, key).0, locks)
  {
    hide DbOk, Current, Txn;
    var (after, got) := Acquire(s, key);
    if got {
      assert !HeldBy(s, key, s.nextLease);
      forall other | other in locks
        ensures other in Current(after.db.log) <==> exists id :: HeldBy(after, other, id)
      {
        if other == key {
          assert HeldBy(after, key, s.nextLease);
        } else {
          assert forall id :: HeldBy(after, other, id) <==> HeldBy(s, other, id);
        }
      }
      forall a, b | a in after.leases && b in after.leases && after.leases[a] == after.leases[b]
        ensures a == b
      {
        assert a in s.leases ==> HeldBy(s, s.leases[a], a);
        assert b in s.leases ==> HeldBy(s, s.leases[b], b);
      }
    } else {
      assert forall other, id :: HeldBy(after, other, id) <==> HeldBy(s, other, id);
    }
  }

  lemma RevokeKeeps(s: State, locks: set<Str>, id: LeaseId)
    requires Exclusive(s, locks) && id in s.leases
    requires var after := Revoke(s, id);
             && DbOk(after.db)
             && forall other: Str :: other in Current(after.db.log) <==> other in Current(s.db.log) && other != s.leases[id]
    ensures Exclusive(Revoke(s, id), locks)
  {
    hide DbOk, Current, Delete;
    var after, key := Revoke(s, id), s.leases[id];
    forall other | other in locks
      ensures other in Current(after.db.log) <==> exists x :: HeldBy(after, other, x)
    {
      if other == key {
        assert forall x :: HeldBy(s, key, x) ==> x == id;
        assert forall x :: !HeldBy(after, key, x);
      } else {
        assert forall x :: HeldBy(after, other, x) <==> HeldBy(s, other, x);
      }
    }
  }

  ghost predicate Run(db: Db, locks: set<Str>, steps: seq<Step>, states: seq<State>) {
    && |states| == |steps| + 1
    && states[0] == State(db, map[], 1)
    && forall i :: 0 <= i < |steps| ==> Fair(locks, steps[i]) && states[i + 1] == Apply(states[i], steps[i])
  }

  /** In every state of every run in which only lock operations touch lock keys, each lock is held
      by at most one lease, and its key exists exactly while it is. */
  lemma {:induction false} MutualExclusion(db: Db, locks: set<Str>, steps: seq<Step>, states: seq<State>, n: nat)
    requires DbOk(db) && [] !in locks && (forall key :: key in locks ==> key !in Current(db.log))
    requires Run(db, locks, steps, states) && n <= |steps|
    ensures Exclusive(states[n], locks)
  {
    hide DbOk, Current;
    if n > 0 {
      MutualExclusion(db, locks, steps, states, n - 1);
      hide Apply, Exclusive;
      StepKeeps(states[n - 1], locks, steps[n - 1]);
    } else {
      assert forall key, id :: !HeldBy(states[0], key, id);
    }
  }

  // ----- the leases of a store -----

  class Leases {
    const etcd: FakeState
    var leases: map<LeaseId, Str>
    var nextLeaseId: LeaseId

    constructor (etcd: FakeState)
      ensures this.etcd == etcd && leases == map[] && nextLeaseId == 1
    {
      this.etcd, leases, nextLeaseId := etcd, map[], 1;
    }

    ghost function View(): State
      reads this, etcd
    {
      State(etcd.View(), leases, nextLeaseId)
    }

    /** Creates the lock key if it does not exist, with a lease on it; the lease number is used up
        either way. */
    method AcquireLock(key: Str) returns (lease: Option<LeaseId>)
      requires etcd.Valid() && key != []
      modifies this`leases, this`nextLeaseId
      modifies etcd`revision, etcd`log, etcd`compactedRevision, etcd`lost, etcd.histories, etcd.history, set w | w in etcd.watchers
      ensures etcd.Valid() && (View(), lease.Some?) == Acquire(old(View()), key)
      ensures lease.Some? <==> old(key !in Current(etcd.log))
      ensures lease.Some? ==> lease == Some(old(nextLeaseId)) && HeldBy(View(), key, lease.value)
    {
      hide Current, Txn, FakeState.Valid, FakeState.StoreOk, FakeState.WatchersSound, DbOk;
      SoundStore(etcd);
      AcquireExactly(View(), key);
      var leaseId := nextLeaseId;
      nextLeaseId := nextLeaseId + 1;
      var result := etcd.Txn(LockTxn(key));
      if result.Err? || !result.value.succeeded {
        return None;
      }
      leases := leases[leaseId := key];
      return Some(leaseId);
    }

    /** Ends a lease, if it is still there, and deletes its key, if that is. */
    method RevokeLease(id: LeaseId)
      requires etcd.Valid() && (id in leases ==> leases[id] != [])
      modifies this`leases
      modifies etcd`revision, etcd`log, etcd`compactedRevision, etcd.histories, etcd.history, set w | w in etcd.watchers
      ensures etcd.Valid() && View() == Revoke(old(View()), id)
    {
      hide Current, Delete, FakeState.Valid, FakeState.StoreOk, FakeState.WatchersSound, DbOk;
      if id !in leases {
        return;
      }
      var key := leases[id];
      leases := leases - {id};
      SoundStore(etcd);
      var value := etcd.CurrentValue(key);
      if value.Some? {
        var _ := etcd.Delete([], DeleteOptions(key, [], false));
      }
    }
  }
}
