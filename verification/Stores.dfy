/** Objects kept in the key/value store, changed by compare-and-swap: an operation reads an object,
    lets other requests run, and then writes if the object is still the one that it read. */
module Stores {
  import opened Options
  import opened Text
  import opened KeyRange
  import opened Mvcc
  import opened SortedMaps
  import opened EtcdSpec
  import opened EtcdProofs
  import opened Etcd

  datatype Refusal = NotFound | Conflict | AlreadyExists | Refused(error: EtcdSpec.Error)

  datatype Outcome<+T> = Done(value: T) | Failed(why: Refusal)

  // ----- what one client sees of the requests of others -----

  datatype Request =
    | PutRequest(namespace: Str, put: PutOptions)
    | DeleteRequest(namespace: Str, delete: DeleteOptions)
    | TxnCall(txn: TxnRequest)
    | CompactRequest(revision: Option<int>)

  ghost function Serve(db: Db, request: Request): Db {
    match request
    case PutRequest(namespace, o) => Put(db, namespace, o).0
    case DeleteRequest(namespace, o) => Delete(db, namespace, o).0
    case TxnCall(t) => Txn(db, t).0
    case CompactRequest(revision) => Compact(db, revision).0
  }

  ghost function ServeAll(db: Db, requests: seq<Request>): Db {
    if requests == [] then db else Serve(ServeAll(db, requests[..|requests| - 1]), requests[|requests| - 1])
  }

  lemma ExtendsTwice(a: Log, b: Log, c: Log)
    requires Extends(b, a) && Extends(c, b)
    ensures Extends(c, a)
  {
    assert c[..|a|] == c[..|b|][..|a|];
  }

  lemma {:induction false} DeletesExtend(db: Db, doomed: seq<Stored>, revision: nat)
    ensures Extends(AppendDeletes(db, doomed, revision).log, db.log)
  {
    if doomed != [] {
      DeletesExtend(db, doomed[..|doomed| - 1], revision);
    }
  }

  lemma PutExtends(db: Db, namespace: Str, o: PutOptions, revision: nat)
    ensures Extends(ApplyPut(db, namespace, o, revision).0.log, db.log)
  {
  }

  lemma OpExtends(db: Db, op: Op, revision: nat)
    ensures Extends(RunOp(db, op, revision).0.log, db.log)
  {
    hide AppendDeletes, Doomed, Current, IsKeyInRange, Range, ApplyPut;
    match op {
      case PutOp(o) => PutExtends(db, [], o, revision);
      case DeleteOp(o) => DeletesExtend(db, DoomedBy(db, [], o), revision);
      case RangeOp(_) =>
      case TxnOp =>
    }
  }

  lemma {:induction false} OpsExtend(db: Db, ops: seq<Op>, revision: nat)
    ensures Extends(RunOps(db, ops, revision).0.log, db.log)
  {
    hide RunOp;
    if ops != [] {
      var init := ops[..|ops| - 1];
      OpsExtend(db, init, revision);
      var mid := RunOps(db, init, revision).0;
      OpExtends(mid, ops[|ops| - 1], revision);
      ExtendsTwice(db.log, mid.log, RunOps(db, ops, revision).0.log);
    }
  }

  /** A request only ever adds to the log, and keeps the store sound. */
  lemma ServeExtends(db: Db, request: Request)
    requires DbOk(db)
    ensures DbOk(Serve(db, request)) && Extends(Serve(db, request).log, db.log)
  {
    hide DbOk, RunOps, AppendDeletes, Doomed, ApplyPut, Current, WriteRangesValid;
    match request {
      case PutRequest(namespace, o) =>
        PutKeepsOk(db, namespace, o);
        PutExtends(Bump(db), namespace, o, db.revision + 1);
      case DeleteRequest(namespace, o) =>
        DeleteKeepsOk(db, namespace, o);
        DeletesExtend(Bump(db), DoomedBy(db, namespace, o), db.revision + 1);
      case TxnCall(t) =>
        TxnKeepsOk(db, t);
        var start := TxnStart(db, Chosen(db, t));
        OpsExtend(start, Chosen(db, t), start.revision);
      case CompactRequest(revision) => CompactKeepsOk(db, revision);
    }
  }

  lemma {:induction false} ServeAllExtends(db: Db, requests: seq<Request>)
    requires DbOk(db)
    ensures DbOk(ServeAll(db, requests)) && Extends(ServeAll(db, requests).log, db.log)
  {
    hide DbOk, Serve;
    if requests != [] {
      var init := requests[..|requests| - 1];
      ServeAllExtends(db, init);
      ServeExtends(ServeAll(db, init), requests[|requests| - 1]);
      ExtendsTwice(db.log, ServeAll(db, init).log, ServeAll(db, requests).log);
    }
  }

  /** Whatever requests run between its read and its write, an update succeeds exactly when the object
      is still the one that it read, which it then replaces; otherwise it writes nothing. */
  lemma UpdateReplacesWhatItRead(read: Db, others: seq<Request>, key: Str, value: Bytes)
    requires DbOk(read) && key != [] && key in Current(read.log)
    ensures var seen, commit := Current(read.log)[key], ServeAll(read, others);
            var (after, r) := Txn(commit, UpdateTxn(key, seen.modRevision, value));
            && r.Ok?
            && (r.value.succeeded <==> Lookup(Current(commit.log), key) == Some(seen))
            && (r.value.succeeded ==>
                  && History(commit.log, key) == History(read.log, key)
                  && after.log == commit.log + [Entry(commit.revision + 1,
                       Event(PutEvent, Stored(key, value, seen.createRevision, commit.revision + 1, seen.version + 1), Some(seen)))])
            && (!r.value.succeeded ==> after == commit)
  {
    hide DbOk, Current, Txn, Serve;
    ServeAllExtends(read, others);
    NoLostUpdate(read, ServeAll(read, others), key, value);
  }

  /** Whatever requests run in between, a delete removes exactly the object that it read, or nothing. */
  lemma DeleteRemovesWhatItRead(read: Db, others: seq<Request>, key: Str)
    requires DbOk(read) && key != [] && key in Current(read.log)
    ensures var seen, commit := Current(read.log)[key], ServeAll(read, others);
            var (after, r) := Txn(commit, DeleteTxn(key, seen.modRevision));
            && r.Ok?
            && (r.value.succeeded <==> Lookup(Current(commit.log), key) == Some(seen))
            && (r.value.succeeded ==>
                  && History(commit.log, key) == History(read.log, key)
                  && Current(after.log) == Current(commit.log) - {key})
            && (!r.value.succeeded ==> after == commit)
  {
    hide DbOk, Current, Txn, Serve;
    ServeAllExtends(read, others);
    NoLostDelete(read, ServeAll(read, others), key);
  }

  // ----- creating -----

  function CreateTxn(key: Str, value: Bytes): TxnRequest {
    TxnRequest([Clause(key, VersionTarget, Equal, 0, [])], [PutOp(PutOptions(key, Some(value), false, false))], [])
  }

  /** A live key has been put at least once. */
  lemma VersionPositive(log: Log, key: Str)
    requires WellFormed(log) && key in Current(log)
    ensures Current(log)[key].version > 0
  {
    LiveMatchesHistory(log, key);
  }

  lemma VersionMeansAbsent(log: Log, key: Str)
    requires WellFormed(log)
    ensures Holds(Lookup(Current(log), key), Clause(key, VersionTarget, Equal, 0, [])) <==> key !in Current(log)
  {
    if key in Current(log) {
      VersionPositive(log, key);
    }
  }

  lemma PutAbsentKey(db: Db, key: Str, value: Bytes)
    requires key != [] && key !in Current(db.log)
    ensures var (after, r) := RunOp(Bump(db), PutOp(PutOptions(key, Some(value), false, false)), db.revision + 1);
            r.Ok? && after.log == db.log + [Entry(db.revision + 1,
                       Event(PutEvent, Stored(key, value, db.revision + 1, db.revision + 1, 1), None))]
  {
    assert NamespacedKey([], key) == key;
  }

  /** A create succeeds exactly when the object does not exist at its commit, and is then the first
      version of the object: of two creates of one object, with nothing removing it, one fails. */
  lemma CreateExactly(db: Db, key: Str, value: Bytes)
    requires DbOk(db) && key != []
    ensures var (after, r) := Txn(db, CreateTxn(key, value));
            && r.Ok?
            && (r.value.succeeded <==> key !in Current(db.log))
            && (r.value.succeeded ==> after.log == db.log + [Entry(db.revision + 1,
                  Event(PutEvent, Stored(key, value, db.revision + 1, db.revision + 1, 1), None))])
            && (!r.value.succeeded ==> after == db)
  {
    assert WellFormed(db.log);
    hide Txn, Current, RunOp, DbOk, Holds, Lookup, WellFormed, Bump;
    VersionMeansAbsent(db.log, key);
    SwapTxn(db, Clause(key, VersionTarget, Equal, 0, []), PutOp(PutOptions(key, Some(value), false, false)));
    if key !in Current(db.log) {
      PutAbsentKey(db, key, value);
    }
  }

  // ----- reading one object -----

  function GetOptions(key: Str): RangeOptions {
    RangeOptions(key, [], 1, None, ByKey, Unordered, false, false, None, None, None, None)
  }

  /** Reading one key shows its live value. */
  lemma GetReadsCurrent(db: Db, key: Str)
    requires DbOk(db) && key != []
    ensures var r := Range(db, [], GetOptions(key));
            r.Ok? && r.value.kvs == if key in Current(db.log) then [Current(db.log)[key]] else []
  {
    var o := GetOptions(key);
    hide DbOk, Current, PassesRangeFilters, Visible, SnapshotMatches, Matches, History, RangeOver;
    CurrentRangeExact(db, [], o);
    OneMatch(db, key);
    var matches := Matches(db, db.revision, [], o);
    if key in Current(db.log) {
      ListsOne(db.revision, key, MakeSortKey(Current(db.log)[key], ByKey), Current(db.log)[key]);
    } else {
      ListsNone(db.revision, key);
    }
  }

  lemma ListsOne(revision: nat, key: Str, sk: SortKey, value: Stored)
    ensures RangeOver(map[sk := value], revision, [], GetOptions(key)).kvs == [value]
  {
    ComparatorIsTotal(Unordered);
    var matches := map[sk := value];
    assert matches.Keys == {sk};
    OneListed(Comparator(Unordered), sk, SortSet(Comparator(Unordered), matches.Keys));
  }

  lemma ListsNone(revision: nat, key: Str)
    ensures RangeOver(map[], revision, [], GetOptions(key)).kvs == []
  {
    ComparatorIsTotal(Unordered);
    var matches: map<SortKey, Stored> := map[];
    var keys := SortSet(Comparator(Unordered), matches.Keys);
    assert forall k :: k !in keys;
    assert keys == [];
  }

  lemma OneListed<K(!new)>(compare: (K, K) -> int, k: K, keys: seq<K>)
    requires IsListing(compare, {k}, keys) && TotalOrder(compare)
    ensures keys == [k]
  {
    ListingUnique(compare, {k}, keys, [k]);
  }

  lemma OneMatch(db: Db, key: Str)
    requires DbOk(db)
    ensures var found := SnapshotMatches(Current(db.log), [], GetOptions(key));
            found == if key in Current(db.log) then map[MakeSortKey(Current(db.log)[key], ByKey) := Current(db.log)[key]] else map[]
  {
    var s := Current(db.log);
    assert NamespacedKey([], key) == key && NamespacedRangeEnd([], []) == [];
    if key in s {
      LiveMatchesHistory(db.log, key);
      assert s[key].key == key;
    }
    hide DbOk, Current;
  }

  // ----- the store of one kind of object -----

  lemma SoundStore(etcd: FakeState)
    requires etcd.Valid()
    ensures etcd.StoreOk() && DbOk(etcd.View())
  {
    hide FakeState.WatchersSound;
    etcd.StoreIsOk();
  }

  class Store {
    const etcd: FakeState

    constructor (etcd: FakeState)
      ensures this.etcd == etcd
    {
      this.etcd := etcd;
    }

    /** The object under a key, with the revision that last wrote it. */
    method ReadStored(key: Str) returns (existing: Option<Stored>)
      requires etcd.Valid() && key != []
      ensures existing == Lookup(Current(etcd.log), key)
    {
      hide Current, Txn, DbOk, Extends, FakeState.Valid, FakeState.StoreOk, FakeState.WatchersSound, Range;
      SoundStore(etcd);
      GetReadsCurrent(etcd.View(), key);
      var response := etcd.Range([], GetOptions(key));
      existing := if |response.value.kvs| == 0 then None else Some(response.value.kvs[0]);
    }

    /** The part of a create that comes before the allocations: an object must not exist yet. */
    method BeginCreate(key: Str) returns (r: Outcome<()>)
      requires etcd.Valid() && key != []
      ensures r == if key in Current(etcd.log) then Failed(AlreadyExists) else Done(())
    {
      hide Current, Txn, DbOk, Extends, FakeState.Valid, FakeState.StoreOk, FakeState.WatchersSound, Range;
      var existing := ReadStored(key);
      r := if existing.Some? then Failed(AlreadyExists) else Done(());
    }

    method CommitCreate(key: Str, value: Bytes) returns (r: Outcome<nat>)
      requires etcd.Valid() && key != []
      modifies etcd`revision, etcd`log, etcd`compactedRevision, etcd`lost, etcd.histories, etcd.history, set w | w in etcd.watchers
      ensures etcd.Valid()
      ensures old(key in Current(etcd.log)) ==> r == Failed(AlreadyExists) && etcd.View() == old(etcd.View())
      ensures old(key !in Current(etcd.log)) ==>
                && r == Done(old(etcd.revision) + 1)
                && etcd.log == old(etcd.log) + [Entry(r.value, Event(PutEvent, Stored(key, value, r.value, r.value, 1), None))]
    {
      hide Current, Txn, DbOk, Extends, FakeState.Valid, FakeState.StoreOk, FakeState.WatchersSound, Range;
      SoundStore(etcd);
      CreateExactly(etcd.View(), key, value);
      if key !in Current(etcd.log) {
        CreateRevision(etcd.View(), key, value);
      }
      var response := etcd.Txn(CreateTxn(key, value));
      r := if response.value.succeeded then Done(response.value.revision) else Failed(AlreadyExists);
    }

    /** The part of an update that comes before the allocations: what it will replace. */
    method BeginUpdate(key: Str, resourceVersion: Option<nat>) returns (r: Outcome<Stored>)
      requires etcd.Valid() && key != []
      ensures r == var existing := Lookup(Current(etcd.log), key);
                   if existing.None? then Failed(NotFound)
                   else if resourceVersion.Some? && resourceVersion.value != existing.value.modRevision then Failed(Conflict)
                   else Done(existing.value)
    {
      hide Current, Txn, DbOk, Extends, FakeState.Valid, FakeState.StoreOk, FakeState.WatchersSound, Range;
      var existing := ReadStored(key);
      if existing.None? {
        return Failed(NotFound);
      }
      if resourceVersion.Some? && resourceVersion.value != existing.value.modRevision {
        return Failed(Conflict);
      }
      return Done(existing.value);
    }

    /** Replaces the object that was read when the store was `read`, if it is still there. */
    method CommitUpdate(key: Str, seen: Stored, value: Bytes, ghost read: Db) returns (r: Outcome<nat>)
      requires etcd.Valid() && key != []
      requires DbOk(read) && Extends(etcd.log, read.log) && Lookup(Current(read.log), key) == Some(seen)
      modifies etcd`revision, etcd`log, etcd`compactedRevision, etcd`lost, etcd.histories, etcd.history, set w | w in etcd.watchers
      ensures etcd.Valid()
      ensures old(Lookup(Current(etcd.log), key)) != Some(seen) ==> r == Failed(Conflict) && etcd.View() == old(etcd.View())
      ensures old(Lookup(Current(etcd.log), key)) == Some(seen) ==>
                && r == Done(old(etcd.revision) + 1)
                && etcd.log == old(etcd.log) + [Entry(r.value, Event(PutEvent,
                     Stored(key, value, seen.createRevision, r.value, seen.version + 1), Some(seen)))]
    {
      hide Current, Txn, DbOk, Extends, FakeState.Valid, FakeState.StoreOk, FakeState.WatchersSound, Range;
      SoundStore(etcd);
      NoLostUpdate(read, etcd.View(), key, value);
      UpdateRevision(etcd.View(), key, seen, value);
      var response := etcd.Txn(UpdateTxn(key, seen.modRevision, value));
      r := if response.value.succeeded then Done(response.value.revision) else Failed(Conflict);
    }

    /** One round of a delete: it removes what it read, or has to try again. */
    method CommitDelete(key: Str, seen: Stored, ghost read: Db) returns (deleted: bool)
      requires etcd.Valid() && key != []
      requires DbOk(read) && Extends(etcd.log, read.log) && Lookup(Current(read.log), key) == Some(seen)
      modifies etcd`revision, etcd`log, etcd`compactedRevision, etcd`lost, etcd.histories, etcd.history, set w | w in etcd.watchers
      ensures etcd.Valid()
      ensures deleted <==> old(Lookup(Current(etcd.log), key)) == Some(seen)
      ensures deleted ==> Current(etcd.log) == old(Current(etcd.log)) - {key}
      ensures !deleted ==> etcd.View() == old(etcd.View())
    {
      hide Current, Txn, DbOk, Extends, FakeState.Valid, FakeState.StoreOk, FakeState.WatchersSound, Range;
      SoundStore(etcd);
      NoLostDelete(read, etcd.View(), key);
      var response := etcd.Txn(DeleteTxn(key, seen.modRevision));
      deleted := response.value.succeeded;
    }
  }

  lemma CreateRevision(db: Db, key: Str, value: Bytes)
    requires DbOk(db) && key != [] && key !in Current(db.log)
    ensures Txn(db, CreateTxn(key, value)).1.Ok? && Txn(db, CreateTxn(key, value)).1.value.revision == db.revision + 1
  {
    assert WellFormed(db.log);
    hide Txn, Current, RunOp, DbOk, Holds, Lookup, Bump, WellFormed;
    VersionMeansAbsent(db.log, key);
    SwapTxn(db, Clause(key, VersionTarget, Equal, 0, []), PutOp(PutOptions(key, Some(value), false, false)));
    PutAbsentKey(db, key, value);
  }

  lemma UpdateRevision(db: Db, key: Str, seen: Stored, value: Bytes)
    requires DbOk(db) && key != []
    ensures Lookup(Current(db.log), key) == Some(seen) ==>
              Txn(db, UpdateTxn(key, seen.modRevision, value)).1.Ok? &&
              Txn(db, UpdateTxn(key, seen.modRevision, value)).1.value.revision == db.revision + 1
  {
    hide Txn, Current, RunOp, DbOk, Bump, Lookup, Holds;
    if Lookup(Current(db.log), key) == Some(seen) {
      SeenHolds(key, seen);
      SwapTxn(db, Clause(key, ModTarget, Equal, seen.modRevision, []), PutOp(PutOptions(key, Some(value), false, false)));
      PutOneKey(db, key, seen, value);
    }
  }

  lemma SeenHolds(key: Str, seen: Stored)
    ensures Holds(Some(seen), Clause(key, ModTarget, Equal, seen.modRevision, []))
  {
  }
}
