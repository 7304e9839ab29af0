/** What every request keeps, and what reads and compare-and-swap writes may rely on. */
module EtcdProofs {
  import opened Options
  import opened Text
  import opened KeyRange
  import opened SortedMaps
  import opened Mvcc
  import opened EtcdSpec

  /** The store's revision, retention and unpublished set are not touched by single writes. */
  predicate SameFrame(a: Db, b: Db) {
    a.revision == b.revision && a.retained == b.retained && a.lost == b.lost
  }

  lemma TrimmedStep(h: seq<Record>, r: Record, retained: nat, compacted: nat)
    requires retained > 0 && TrimmedBelow(h, retained, compacted)
    ensures TrimmedBelow(h + [r], retained, Watermark(h + [r], retained, compacted))
  {
  }

  lemma TrimmedUp(h: seq<Record>, retained: nat, low: nat, high: nat)
    requires TrimmedBelow(h, retained, low) && low <= high
    ensures TrimmedBelow(h, retained, high)
  {
  }

  lemma AppendKeepsOk(db: Db, e: Entry)
    requires DbOk(db) && 0 < e.revision == db.revision && EventOk(Current(db.log), e)
    requires LastRevision(History(db.log, e.Key())) < e.revision
    ensures DbOk(Append(db, e)) && SameFrame(Append(db, e), db)
    ensures db.compacted <= Append(db, e).compacted
  {
    var after := Append(db, e);
    Extend(db.log, e, e.Key(), 0);
    HistoryIncreasing(after.log, e.Key());
    assert after.compacted <= after.revision;
    forall key: Str
      ensures TrimmedBelow(History(after.log, key), after.retained, after.compacted)
    {
      Extend(db.log, e, key, 0);
      if key == e.Key() {
        TrimmedStep(History(db.log, key), RecordOf(e), db.retained, db.compacted);
      } else {
        TrimmedUp(History(db.log, key), db.retained, db.compacted, after.compacted);
      }
    }
  }

  /** A key whose last record is older than the revision being written. */
  predicate Older(db: Db, key: Str, revision: nat) {
    LastRevision(History(db.log, key)) < revision
  }

  ghost predicate AllOlder(db: Db, revision: nat) {
    forall key: Str :: Older(db, key, revision)
  }

  function Bump(db: Db): Db {
    db.(revision := db.revision + 1)
  }

  lemma BumpKeepsOk(db: Db)
    requires DbOk(db)
    ensures DbOk(Bump(db)) && AllOlder(Bump(db), db.revision + 1)
  {
    var bumped, revision := Bump(db), db.revision + 1;
    forall key: Str
      ensures Older(bumped, key, revision)
    {
      HistoryIncreasing(db.log, key);
    }
  }

  lemma ApplyPutKeepsOk(db: Db, namespace: Str, o: PutOptions, revision: nat)
    requires DbOk(db) && 0 < revision == db.revision && Older(db, NamespacedKey(namespace, o.key), revision)
    ensures var (after, r) := ApplyPut(db, namespace, o, revision);
            && DbOk(after) && SameFrame(after, db)
            && (r.Err? ==> after == db)
            && (r.Ok? ==> exists e :: after.log == db.log + [e] && e.Key() == NamespacedKey(namespace, o.key) && e.revision == revision)
  {
    var key := NamespacedKey(namespace, o.key);
    var existing := Lookup(Current(db.log), key);
    if o.key != [] && !(o.ignoreValue && existing.None?) {
      var e := PutEntry(existing, key, o, revision);
      assert e.Key() == key;
      AppendKeepsOk(db, e);
    }
  }

  predicate DistinctKeys(values: seq<Stored>) {
    forall i, j :: 0 <= i < j < |values| ==> values[i].key != values[j].key
  }

  predicate HasKey(values: seq<Stored>, key: Str) {
    exists i :: 0 <= i < |values| && values[i].key == key
  }

  /** `after` is `before` with exactly the doomed keys deleted, each by one event. */
  ghost predicate Deleted(before: Db, after: Db, doomed: seq<Stored>, revision: nat) {
    && DbOk(after) && SameFrame(after, before)
    && after.log == before.log + DeleteEntries(doomed, revision)
    && (forall key: Str :: if HasKey(doomed, key) then key !in Current(after.log) else SameKey(after, before, key))
  }

  predicate SameKey(a: Db, b: Db, key: Str) {
    Lookup(Current(a.log), key) == Lookup(Current(b.log), key) && History(a.log, key) == History(b.log, key)
  }

  lemma HasKeyAppend(values: seq<Stored>, v: Stored, key: Str)
    ensures HasKey(values + [v], key) <==> HasKey(values, key) || v.key == key
  {
    if HasKey(values, key) {
      var i :| 0 <= i < |values| && values[i].key == key;
      assert (values + [v])[i].key == key;
    }
    if v.key == key {
      assert (values + [v])[|values|].key == key;
    }
  }

  lemma DeleteStep(mid: Db, v: Stored, revision: nat, key: Str)
    ensures var after := Append(mid, DeleteEntry(v, revision));
            if v.key == key then key !in Current(after.log) else SameKey(after, mid, key)
  {
    Extend(mid.log, DeleteEntry(v, revision), key, 0);
  }

  lemma DeleteOneMore(before: Db, mid: Db, doomed: seq<Stored>, v: Stored, revision: nat)
    requires 0 < revision == before.revision && Deleted(before, mid, doomed, revision) && !HasKey(doomed, v.key)
    requires Lookup(Current(before.log), v.key) == Some(v) && Older(before, v.key, revision)
    ensures Deleted(before, Append(mid, DeleteEntry(v, revision)), doomed + [v], revision)
  {
    hide DbOk, Current, History;
    var e := DeleteEntry(v, revision);
    assert SameKey(mid, before, v.key);
    AppendKeepsOk(mid, e);
    assert DeleteEntries(doomed + [v], revision) == DeleteEntries(doomed, revision) + [e];
    var after := Append(mid, e);
    forall key: Str
      ensures if HasKey(doomed + [v], key) then key !in Current(after.log) else SameKey(after, before, key)
    {
      DeleteStep(mid, v, revision, key);
      HasKeyAppend(doomed, v, key);
    }
  }

  /** Deleting distinct live keys removes exactly those keys and leaves every other history alone. */
  lemma {:induction false} AppendDeletesKeepsOk(db: Db, doomed: seq<Stored>, revision: nat)
    requires DbOk(db) && 0 < revision == db.revision && DistinctKeys(doomed)
    requires forall i :: 0 <= i < |doomed| ==>
                           Lookup(Current(db.log), doomed[i].key) == Some(doomed[i]) && Older(db, doomed[i].key, revision)
    ensures Deleted(db, AppendDeletes(db, doomed, revision), doomed, revision)
  {
    hide DbOk, Current, History, DeleteEntry, Append, Older;
    if doomed == [] {
      assert db.log + DeleteEntries(doomed, revision) == db.log;
    } else {
      var init, last := doomed[..|doomed| - 1], doomed[|doomed| - 1];
      AppendDeletesKeepsOk(db, init, revision);
      DeleteOneMore(db, AppendDeletes(db, init, revision), init, last, revision);
      assert doomed == init + [last];
    }
  }

  function DeleteEntries(doomed: seq<Stored>, revision: nat): seq<Entry> {
    seq(|doomed|, i requires 0 <= i < |doomed| => DeleteEntry(doomed[i], revision))
  }

  /** The doomed values are the live values of the range, each once. */
  lemma DoomedFacts(db: Db, start: Str, rangeEnd: Str)
    requires DbOk(db)
    ensures var doomed := Doomed(Current(db.log), start, rangeEnd);
            && DistinctKeys(doomed)
            && (forall i :: 0 <= i < |doomed| ==>
                              Lookup(Current(db.log), doomed[i].key) == Some(doomed[i]) && IsKeyInRange(doomed[i].key, start, rangeEnd))
            && (forall key :: key in Current(db.log) && IsKeyInRange(key, start, rangeEnd) ==> HasKey(doomed, key))
  {
    KeyOrderIsTotal();
    var s := Current(db.log);
    var doomed := Doomed(s, start, rangeEnd);
    var keys := SortSet(KeyOrder(), KeysIn(s, start, rangeEnd));
    forall i | 0 <= i < |doomed|
      ensures keys[i] in s && doomed[i] == s[keys[i]] && doomed[i].key == keys[i] && IsKeyInRange(keys[i], start, rangeEnd)
    {
      assert keys[i] in keys;
      LiveMatchesHistory(db.log, keys[i]);
    }
    forall key | key in s && IsKeyInRange(key, start, rangeEnd)
      ensures HasKey(doomed, key)
    {
      assert key in keys;
    }
    ListingDistinct(keys);
  }

  lemma ListingDistinct(keys: seq<Str>)
    requires forall i, j :: 0 <= i < j < |keys| ==> KeyOrder()(keys[i], keys[j]) < 0
    ensures forall i, j :: 0 <= i < j < |keys| ==> keys[i] != keys[j]
  {
    forall i, j | 0 <= i < j < |keys|
      ensures keys[i] != keys[j]
    {
      assert KeyOrder()(keys[i], keys[j]) < 0;
      LessIrreflexive(keys[i]);
    }
  }

  /** One operation of a transaction keeps the store sound and touches only its own write range. */
  lemma RunOpKeepsOk(db: Db, op: Op, revision: nat)
    requires DbOk(db) && revision == db.revision && (Writes(op) ==> 0 < revision)
    requires forall key: Str :: InWrite(op, key) ==> Older(db, key, revision)
    ensures var (after, r) := RunOp(db, op, revision);
            && DbOk(after) && SameFrame(after, db)
            && (forall key: Str :: !InWrite(op, key) ==> History(after.log, key) == History(db.log, key))
            && (r.Err? || !Writes(op) ==> after == db)
  {
    match op {
      case RangeOp(o) =>
      case TxnOp =>
      case PutOp(o) => RunPutKeepsOk(db, o, revision);
      case DeleteOp(o) => RunDeleteKeepsOk(db, o, revision);
    }
  }

  lemma RunPutKeepsOk(db: Db, o: PutOptions, revision: nat)
    requires DbOk(db) && 0 < revision == db.revision && Older(db, o.key, revision)
    ensures var (after, r) := ApplyPut(db, [], o, revision);
            && DbOk(after) && SameFrame(after, db)
            && (forall key: Str :: key != o.key ==> History(after.log, key) == History(db.log, key))
            && (r.Err? ==> after == db)
  {
    assert NamespacedKey([], o.key) == o.key;
    ApplyPutKeepsOk(db, [], o, revision);
    var (after, r) := ApplyPut(db, [], o, revision);
    if r.Ok? {
      var e :| after.log == db.log + [e] && e.Key() == o.key && e.revision == revision;
      forall key: Str | key != o.key
        ensures History(after.log, key) == History(db.log, key)
      {
        Extend(db.log, e, key, 0);
      }
    }
  }

  lemma RunDeleteKeepsOk(db: Db, o: DeleteOptions, revision: nat)
    requires DbOk(db) && 0 < revision == db.revision
    requires forall key: Str :: InWrite(DeleteOp(o), key) ==> Older(db, key, revision)
    ensures var (after, r) := RunOp(db, DeleteOp(o), revision);
            && DbOk(after) && SameFrame(after, db)
            && (forall key: Str :: !InWrite(DeleteOp(o), key) ==> History(after.log, key) == History(db.log, key))
            && (r.Err? ==> after == db)
  {
    hide DbOk, Current, History, AppendDeletes, Doomed, IsKeyInRange, Range;
    assert NamespacedKey([], o.key) == o.key;
    assert NamespacedRangeEnd([], o.rangeEnd) == o.rangeEnd;
    var doomed := Doomed(Current(db.log), o.key, o.rangeEnd);
    DoomedFacts(db, o.key, o.rangeEnd);
    forall i | 0 <= i < |doomed|
      ensures Older(db, doomed[i].key, revision)
    {
      assert InWrite(DeleteOp(o), doomed[i].key);
    }
    AppendDeletesKeepsOk(db, doomed, revision);
    var after := AppendDeletes(db, doomed, revision);
    forall key: Str | !InWrite(DeleteOp(o), key)
      ensures History(after.log, key) == History(db.log, key)
    {
      assert !HasKey(doomed, key);
      assert SameKey(after, db, key);
    }
  }

  /** The operations so far keep the store sound and touch no key outside their write ranges,
      so that an accepted transaction never writes a key twice. */
  lemma {:induction false} RunOpsKeepsOk(db: Db, ops: seq<Op>, revision: nat)
    requires DbOk(db) && revision == db.revision && WriteRangesValid(ops)
    requires AnyWrites(ops) ==> 0 < revision && AllOlder(db, revision)
    ensures var (after, r) := RunOps(db, ops, revision);
            && DbOk(after) && SameFrame(after, db)
            && (forall key: Str :: (forall i :: 0 <= i < |ops| ==> !InWrite(ops[i], key)) ==>
                                     History(after.log, key) == History(db.log, key))
            && ((forall i :: 0 <= i < |ops| ==> !Writes(ops[i])) ==> after == db)
  {
    hide DbOk, RunOp, History, RangesOverlap, IsKeyInRange;
    if ops != [] {
      var init, last := ops[..|ops| - 1], ops[|ops| - 1];
      assert forall i :: 0 <= i < |init| ==> init[i] == ops[i];
      RunOpsKeepsOk(db, init, revision);
      var (mid, responses) := RunOps(db, init, revision);
      forall key: Str | InWrite(last, key)
        ensures Older(mid, key, revision)
      {
        assert Writes(ops[|ops| - 1]) && Older(db, key, revision);
        forall i | 0 <= i < |init|
          ensures !InWrite(init[i], key)
        {
          if Writes(init[i]) {
            DisjointRanges(WriteStart(ops[i]), WriteEnd(ops[i]), WriteStart(last), WriteEnd(last), key);
          }
        }
      }
      if responses.Ok? {
        RunOpKeepsOk(mid, last, revision);
      }
      var (after, r) := RunOps(db, ops, revision);
      forall key: Str | forall i :: 0 <= i < |ops| ==> !InWrite(ops[i], key)
        ensures History(after.log, key) == History(db.log, key)
      {
        assert !InWrite(ops[|ops| - 1], key);
        assert History(mid.log, key) == History(db.log, key);
      }
    }
  }

  // ----- every request keeps the store sound -----

  lemma PutKeepsOk(db: Db, namespace: Str, o: PutOptions)
    requires DbOk(db)
    ensures DbOk(Put(db, namespace, o).0)
  {
    hide DbOk, Current, History;
    BumpKeepsOk(db);
    ApplyPutKeepsOk(Bump(db), namespace, o, db.revision + 1);
  }

  lemma DeleteOutcome(db: Db, namespace: Str, o: DeleteOptions)
    requires DbOk(db) && RangeRequestOk(o.key, o.rangeEnd)
    ensures var after, doomed := Delete(db, namespace, o).0, DoomedBy(db, namespace, o);
            if doomed == [] then after == db else Deleted(Bump(db), after, doomed, db.revision + 1)
  {
    hide DbOk, Current, History, AppendDeletes, Doomed, IsKeyInRange, Deleted;
    DoomedFacts(db, NamespacedKey(namespace, o.key), NamespacedRangeEnd(namespace, o.rangeEnd));
    BumpKeepsOk(db);
    AppendDeletesKeepsOk(Bump(db), DoomedBy(db, namespace, o), db.revision + 1);
  }

  /** A delete removes exactly the live keys of its range. */
  lemma DeleteKeepsOk(db: Db, namespace: Str, o: DeleteOptions)
    requires DbOk(db)
    ensures DbOk(Delete(db, namespace, o).0)
    ensures RangeRequestOk(o.key, o.rangeEnd) ==>
              forall key :: key in Current(Delete(db, namespace, o).0.log) <==>
                            key in Current(db.log) && !IsKeyInRange(key, NamespacedKey(namespace, o.key), NamespacedRangeEnd(namespace, o.rangeEnd))
  {
    if RangeRequestOk(o.key, o.rangeEnd) {
      var start, rangeEnd := NamespacedKey(namespace, o.key), NamespacedRangeEnd(namespace, o.rangeEnd);
      var after, doomed := Delete(db, namespace, o).0, DoomedBy(db, namespace, o);
      DeleteOutcome(db, namespace, o);
      DoomedFacts(db, start, rangeEnd);
      forall key
        ensures key in Current(after.log) <==> key in Current(db.log) && !IsKeyInRange(key, start, rangeEnd)
      {
        DeletedKey(db, after, doomed, start, rangeEnd, key);
      }
    }
  }

  lemma DeletedKey(db: Db, after: Db, doomed: seq<Stored>, start: Str, rangeEnd: Str, key: Str)
    requires doomed == [] ==> after == db
    requires doomed != [] ==> Deleted(Bump(db), after, doomed, db.revision + 1)
    requires forall i :: 0 <= i < |doomed| ==>
                           Lookup(Current(db.log), doomed[i].key) == Some(doomed[i]) && IsKeyInRange(doomed[i].key, start, rangeEnd)
    requires key in Current(db.log) && IsKeyInRange(key, start, rangeEnd) ==> HasKey(doomed, key)
    ensures key in Current(after.log) <==> key in Current(db.log) && !IsKeyInRange(key, start, rangeEnd)
  {
    if doomed != [] && !HasKey(doomed, key) {
      assert Lookup(Current(after.log), key) == Lookup(Current(db.log), key);
    }
  }

  lemma TxnKeepsOk(db: Db, t: TxnRequest)
    requires DbOk(db)
    ensures DbOk(Txn(db, t).0)
  {
    hide DbOk, RunOps, Older, WriteRangesValid;
    var ops := Chosen(db, t);
    if WriteRangesValid(ops) {
      BumpKeepsOk(db);
      var start := TxnStart(db, ops);
      RunOpsKeepsOk(start, ops, start.revision);
      LostKeepsOk(RunOps(start, ops, start.revision).0, start.revision);
    }
  }

  lemma LostKeepsOk(db: Db, revision: nat)
    requires DbOk(db)
    ensures DbOk(db.(lost := db.lost + {revision}))
  {
  }

  lemma CompactKeepsOk(db: Db, requested: Option<int>)
    requires DbOk(db)
    ensures DbOk(Compact(db, requested).0)
  {
    var after := Compact(db, requested).0;
    forall key: Str
      ensures TrimmedBelow(History(after.log, key), after.retained, after.compacted)
    {
      TrimmedUp(History(db.log, key), db.retained, db.compacted, after.compacted);
    }
  }

  // ----- snapshot reads -----

  /** Exactly when a read at an available revision shows the true snapshot of a key. */
  lemma SnapshotReadExact(db: Db, revision: nat, key: Str)
    requires DbOk(db) && db.compacted < revision <= db.revision
    ensures Visible(db, revision, key) == Lookup(SnapshotAt(db.log, revision), key)
            <==> !InTrimGap(History(db.log, key), db.retained, revision)
  {
    HistoryIncreasing(db.log, key);
    assert TrimmedBelow(History(db.log, key), db.retained, db.compacted);
    KeepReadsExact(History(db.log, key), db.retained, db.compacted, revision);
    SnapshotIsHistory(db.log, revision, key);
  }

  /** A read at the current revision is exact for every key. */
  lemma CurrentReadExact(db: Db, key: Str)
    requires DbOk(db)
    ensures Visible(db, db.revision, key) == Lookup(Current(db.log), key) == CurrentOf(Keep(History(db.log, key), db.retained))
  {
    var h := History(db.log, key);
    HistoryIncreasing(db.log, key);
    LiveMatchesHistory(db.log, key);
    var kept := Keep(h, db.retained);
    assert kept != [] ==> kept[|kept| - 1] == h[|h| - 1];
  }

  /** The trim gap is real: with one retained revision, a key put at revisions 1 and 3 reads as
      absent at revision 2, where it is live. */
  lemma TrimGapExists() returns (db: Db, key: Str)
    ensures DbOk(db) && db.compacted < 2 <= db.revision
    ensures Lookup(SnapshotAt(db.log, 2), key).Some? && Visible(db, 2, key).None?
  {
    key := [1];
    var a := PutOptions(key, Some([7]), false, false);
    var b := PutOptions([2], None, false, false);
    var db0 := Db(0, 0, 1, [], {});
    PutKeepsOk(db0, [], a);
    var db1 := Put(db0, [], a).0;
    PutKeepsOk(db1, [], b);
    var db2 := Put(db1, [], b).0;
    PutKeepsOk(db2, [], a);
    db := Put(db2, [], a).0;
    assert NamespacedKey([], key) == key && NamespacedKey([], [2]) == [2];
    var e1 := PutEntry(None, key, a, 1);
    assert db1.log == [e1];
    Extend([], e1, key, 2);
    assert [] + [e1] == [e1];
    var e2 := PutEntry(Lookup(Current(db1.log), [2]), [2], b, 2);
    assert db2.log == [e1] + [e2];
    Extend([e1], e2, key, 2);
    var e3 := PutEntry(Lookup(Current(db2.log), key), key, a, 3);
    assert db.log == db2.log + [e3];
    Extend(db2.log, e3, key, 2);
    assert History(db.log, key) == [RecordOf(e1), RecordOf(e3)];
    assert Keep(History(db.log, key), 1) == [RecordOf(e3)];
  }

  lemma {:induction false} FindAtIn(h: seq<Record>, at: nat, key: Str)
    requires forall i :: 0 <= i < |h| ==> h[i].key == key
    ensures FindAt(h, at).Some? ==> FindAt(h, at).value.key == key
  {
    if h != [] {
      FindAtIn(h[..|h| - 1], at, key);
    }
  }

  lemma VisibleKey(db: Db, at: nat, key: Str)
    requires DbOk(db)
    ensures Visible(db, at, key).Some? ==> Visible(db, at, key).value.key == key
  {
    HistoryIncreasing(db.log, key);
    FindAtIn(Keep(History(db.log, key), db.retained), at, key);
  }

  lemma {:induction false} KeysHaveHistory(log: Log, key: Str)
    ensures key in KeysOf(log) <==> History(log, key) != []
  {
    if log != [] {
      var n := |log| - 1;
      KeysHaveHistory(log[..n], key);
      if key in KeysOf(log) && log[n].Key() != key {
        var i :| 0 <= i < |log| && log[i].Key() == key;
        assert log[..n][i].Key() == key;
      }
    }
  }

  /** The key of a match, and the value shown for it. */
  predicate IsMatch(db: Db, at: nat, o: RangeOptions, key: Str, sk: SortKey) {
    var v := Visible(db, at, key);
    v.Some? && PassesRangeFilters(v.value, o) && sk == MakeSortKey(v.value, o.sortTarget)
  }

  lemma MatchMembers(db: Db, at: nat, namespace: Str, o: RangeOptions, sk: SortKey)
    requires DbOk(db)
    ensures var start, rangeEnd := NamespacedKey(namespace, o.key), NamespacedRangeEnd(namespace, o.rangeEnd);
            && (sk in Matches(db, at, namespace, o) <==>
                sk.key in KeysOf(db.log) && IsKeyInRange(sk.key, start, rangeEnd) && IsMatch(db, at, o, sk.key, sk))
            && (sk in Matches(db, at, namespace, o) ==> Matches(db, at, namespace, o)[sk] == Visible(db, at, sk.key).value)
  {
    hide DbOk, IsKeyInRange, Visible, PassesRangeFilters;
    var start, rangeEnd := NamespacedKey(namespace, o.key), NamespacedRangeEnd(namespace, o.rangeEnd);
    if sk in Matches(db, at, namespace, o) {
      var key :| key in KeysOf(db.log) && IsKeyInRange(key, start, rangeEnd)
                 && Visible(db, at, key).Some? && PassesRangeFilters(Visible(db, at, key).value, o)
                 && sk == MakeSortKey(Visible(db, at, key).value, o.sortTarget);
      VisibleKey(db, at, key);
    }
  }

  /** The live values of a snapshot that a read asks for, under the sort keys that order them. */
  ghost function SnapshotMatches(s: Snapshot, namespace: Str, o: RangeOptions): map<SortKey, Stored> {
    var start, rangeEnd := NamespacedKey(namespace, o.key), NamespacedRangeEnd(namespace, o.rangeEnd);
    var found := set key | key in s && IsKeyInRange(key, start, rangeEnd) && PassesRangeFilters(s[key], o)
                 :: MakeSortKey(s[key], o.sortTarget);
    map sk | sk in found && sk.key in s :: s[sk.key]
  }

  /** A key of the range whose true value the read cannot see. */
  predicate Missed(db: Db, at: nat, namespace: Str, o: RangeOptions, key: Str) {
    && IsKeyInRange(key, NamespacedKey(namespace, o.key), NamespacedRangeEnd(namespace, o.rangeEnd))
    && InTrimGap(History(db.log, key), db.retained, at)
    && key in SnapshotAt(db.log, at) && PassesRangeFilters(SnapshotAt(db.log, at)[key], o)
  }

  lemma SnapshotMember(db: Db, at: nat, namespace: Str, o: RangeOptions, sk: SortKey)
    requires DbOk(db)
    ensures var start, rangeEnd := NamespacedKey(namespace, o.key), NamespacedRangeEnd(namespace, o.rangeEnd);
            var s := SnapshotAt(db.log, at);
            && (sk in SnapshotMatches(s, namespace, o) <==>
                sk.key in s && IsKeyInRange(sk.key, start, rangeEnd) && PassesRangeFilters(s[sk.key], o) && sk == MakeSortKey(s[sk.key], o.sortTarget))
            && (sk in SnapshotMatches(s, namespace, o) ==> SnapshotMatches(s, namespace, o)[sk] == s[sk.key])
  {
    hide DbOk, IsKeyInRange, PassesRangeFilters, SnapshotAt;
    var start, rangeEnd := NamespacedKey(namespace, o.key), NamespacedRangeEnd(namespace, o.rangeEnd);
    var s := SnapshotAt(db.log, at);
    if sk in SnapshotMatches(s, namespace, o) {
      var key :| key in s && IsKeyInRange(key, start, rangeEnd) && PassesRangeFilters(s[key], o) && sk == MakeSortKey(s[key], o.sortTarget);
      SnapshotKey(db, at, key);
    }
  }

  lemma SnapshotKey(db: Db, at: nat, key: Str)
    requires DbOk(db)
    ensures key in SnapshotAt(db.log, at) ==> key in KeysOf(db.log) && SnapshotAt(db.log, at)[key].key == key
  {
    HistoryIncreasing(db.log, key);
    SnapshotIsHistory(db.log, at, key);
    FindAtIn(History(db.log, key), at, key);
    KeysHaveHistory(db.log, key);
  }

  /** A read sees either a key's true value or, in a trim gap, nothing. */
  lemma SeenOrMissed(db: Db, at: nat, key: Str)
    requires DbOk(db) && (db.compacted < at <= db.revision || at == db.revision)
    ensures Visible(db, at, key) == Lookup(SnapshotAt(db.log, at), key) || Visible(db, at, key).None?
    ensures Visible(db, at, key) == Lookup(SnapshotAt(db.log, at), key) || InTrimGap(History(db.log, key), db.retained, at)
    ensures InTrimGap(History(db.log, key), db.retained, at) ==> Visible(db, at, key).None?
  {
    HistoryIncreasing(db.log, key);
    if at == db.revision {
      CurrentReadExact(db, key);
      SnapshotOfAll(db.log, at);
    } else {
      SnapshotReadExact(db, at, key);
    }
    GapSeesNothing(History(db.log, key), db.retained, at);
  }

  lemma GapSeesNothing(h: seq<Record>, retained: nat, at: nat)
    requires Increasing(h)
    ensures InTrimGap(h, retained, at) ==> FindAt(Keep(h, retained), at).None? && h[|h| - 1].modRevision > at
  {
    if InTrimGap(h, retained, at) {
      NothingUpTo(Keep(h, retained), at);
    }
  }

  lemma {:induction false} NothingUpTo(h: seq<Record>, at: nat)
    requires h != [] && Increasing(h) && at < h[0].modRevision
    ensures FindAt(h, at).None? && h[|h| - 1].modRevision > at
  {
    if |h| > 1 {
      NothingUpTo(h[..|h| - 1], at);
    }
  }

  /** Exactly when a read returns the true snapshot of its range: no value it asks for lies in a
      trim gap. The answer is RangeOver of these matches: sorted, truncated, and counted in full. */
  lemma RangeShowsSnapshot(db: Db, at: nat, namespace: Str, o: RangeOptions)
    requires DbOk(db) && (db.compacted < at <= db.revision || at == db.revision)
    ensures Matches(db, at, namespace, o) == SnapshotMatches(SnapshotAt(db.log, at), namespace, o)
            <==> forall key: Str :: !Missed(db, at, namespace, o, key)
  {
    hide DbOk, IsKeyInRange, PassesRangeFilters, SnapshotAt, Visible, InTrimGap, Matches, SnapshotMatches, History;
    var matches, truth := Matches(db, at, namespace, o), SnapshotMatches(SnapshotAt(db.log, at), namespace, o);
    if key: Str :| Missed(db, at, namespace, o, key) {
      var sk := MakeSortKey(SnapshotAt(db.log, at)[key], o.sortTarget);
      SnapshotKey(db, at, key);
      SeenOrMissed(db, at, key);
      MatchMembers(db, at, namespace, o, sk);
      SnapshotMember(db, at, namespace, o, sk);
      assert sk in truth && sk !in matches;
    } else {
      forall sk: SortKey
        ensures sk in matches <==> sk in truth
        ensures sk in matches ==> matches[sk] == truth[sk]
      {
        MatchMembers(db, at, namespace, o, sk);
        SnapshotMember(db, at, namespace, o, sk);
        SnapshotKey(db, at, sk.key);
        SeenOrMissed(db, at, sk.key);
        assert !Missed(db, at, namespace, o, sk.key);
      }
      assert matches.Keys == truth.Keys;
    }
  }

  /** A read with no revision, or at the current one, is exact for its whole range. */
  lemma CurrentRangeExact(db: Db, namespace: Str, o: RangeOptions)
    requires DbOk(db)
    ensures Matches(db, db.revision, namespace, o) == SnapshotMatches(Current(db.log), namespace, o)
  {
    forall key: Str
      ensures !Missed(db, db.revision, namespace, o, key)
    {
      HistoryIncreasing(db.log, key);
      GapSeesNothing(History(db.log, key), db.retained, db.revision);
    }
    RangeShowsSnapshot(db, db.revision, namespace, o);
    SnapshotOfAll(db.log, db.revision);
  }

  // ----- compare and swap -----

  /** A log only grows at its end. */
  predicate Extends(later: Log, earlier: Log) {
    |earlier| <= |later| && later[..|earlier|] == earlier
  }

  lemma {:induction false} HistoryGrows(later: Log, earlier: Log, key: Str)
    requires Extends(later, earlier)
    ensures |History(earlier, key)| <= |History(later, key)|
    ensures History(later, key)[..|History(earlier, key)|] == History(earlier, key)
  {
    if later == earlier {
    } else {
      var init := later[..|later| - 1];
      assert init[..|earlier|] == earlier;
      HistoryGrows(init, earlier, key);
    }
  }

  /** The transaction behind an update: put the object if the key's modification revision is
      still the one that was read. */
  function UpdateTxn(key: Str, resourceVersion: nat, value: Bytes): TxnRequest {
    TxnRequest([Clause(key, ModTarget, Equal, resourceVersion, [])],
               [PutOp(PutOptions(key, Some(value), false, false))], [])
  }

  function DeleteTxn(key: Str, resourceVersion: nat): TxnRequest {
    TxnRequest([Clause(key, ModTarget, Equal, resourceVersion, [])], [DeleteOp(DeleteOptions(key, [], false))], [])
  }

  /** The modification revision identifies the version: if it is the one that was read, then
      nothing has written the key since. */
  lemma SameRevisionSameVersion(earlier: Log, later: Log, key: Str)
    requires WellFormed(earlier) && WellFormed(later) && Extends(later, earlier)
    requires key in Current(earlier) && key in Current(later)
    requires Current(later)[key].modRevision == Current(earlier)[key].modRevision
    ensures History(later, key) == History(earlier, key) && Current(later)[key] == Current(earlier)[key]
  {
    HistoryGrows(later, earlier, key);
    HistoryIncreasing(later, key);
    LiveMatchesHistory(earlier, key);
    LiveMatchesHistory(later, key);
    var h0, h := History(earlier, key), History(later, key);
    assert h[|h0| - 1] == h0[|h0| - 1];
    assert h == h[..|h0|];
  }

  /** The clause holds exactly when the key still has the version that was read. */
  lemma ClauseIdentifies(read: Db, commit: Db, key: Str)
    requires DbOk(read) && DbOk(commit) && Extends(commit.log, read.log) && key in Current(read.log)
    ensures var seen := Current(read.log)[key];
            var held := Holds(Lookup(Current(commit.log), key), Clause(key, ModTarget, Equal, seen.modRevision, []));
            && seen.key == key
            && (held <==> Lookup(Current(commit.log), key) == Some(seen))
            && (held ==> History(commit.log, key) == History(read.log, key))
  {
    var seen := Current(read.log)[key];
    LiveMatchesHistory(read.log, key);
    HistoryIncreasing(read.log, key);
    if key in Current(commit.log) && Current(commit.log)[key].modRevision == seen.modRevision {
      SameRevisionSameVersion(read.log, commit.log, key);
    }
  }

  lemma OneClause(db: Db, t: TxnRequest)
    requires |t.compare| == 1
    ensures Succeeds(db, t) <==> Holds(Lookup(Current(db.log), t.compare[0].key), t.compare[0])
  {
  }

  lemma OneOp(db: Db, op: Op, revision: nat)
    ensures RunOps(db, [op], revision) ==
            var (after, r) := RunOp(db, op, revision);
            (after, if r.Ok? then Ok([r.value]) else Err(r.error))
    ensures RunOps(db, [], revision) == (db, Ok([]))
    ensures WriteRangesValid([op]) && WriteRangesValid([])
  {
    assert [op][..0] == [];
    assert RunOps(db, [op][..0], revision) == (db, Ok([]));
    var (after, r) := RunOp(db, op, revision);
    if r.Ok? {
      assert [] + [r.value] == [r.value];
    }
  }

  /** A one-clause, one-write transaction with nothing to do otherwise. */
  lemma SwapTxn(db: Db, clause: Clause, op: Op)
    requires Writes(op)
    ensures var t := TxnRequest([clause], [op], []);
            var held := Holds(Lookup(Current(db.log), clause.key), clause);
            && (!held ==> Txn(db, t) == (db, Ok(TxnResponse(db.revision, false, []))))
            && (held && RunOp(Bump(db), op, db.revision + 1).1.Ok? ==>
                  && Txn(db, t).0 == RunOp(Bump(db), op, db.revision + 1).0
                  && Txn(db, t).1 == Ok(TxnResponse(db.revision + 1, true, [RunOp(Bump(db), op, db.revision + 1).1.value])))
  {
    var t := TxnRequest([clause], [op], []);
    OneClause(db, t);
    OneOp(Bump(db), op, db.revision + 1);
    OneOp(db, op, db.revision);
    assert Writes([op][0]);
    assert AnyWrites([op]) && !AnyWrites([]);
  }

  /** A successful update replaced exactly the version it read: the key has no record between
      the read and the write, and the published event names that version as the previous one. */
  lemma NoLostUpdate(read: Db, commit: Db, key: Str, value: Bytes)
    requires DbOk(read) && DbOk(commit) && Extends(commit.log, read.log)
    requires key != [] && key in Current(read.log)
    ensures var seen := Current(read.log)[key];
            var (after, r) := Txn(commit, UpdateTxn(key, seen.modRevision, value));
            && r.Ok?
            && (r.value.succeeded <==> Lookup(Current(commit.log), key) == Some(seen))
            && (r.value.succeeded ==>
                  && History(commit.log, key) == History(read.log, key)
                  && after.log == commit.log + [Entry(commit.revision + 1,
                       Event(PutEvent, Stored(key, value, seen.createRevision, commit.revision + 1, seen.version + 1), Some(seen)))])
            && (!r.value.succeeded ==> after == commit)
  {
    hide DbOk, Current, History, RunOp, Holds, Txn;
    ClauseIdentifies(read, commit, key);
    var seen := Current(read.log)[key];
    SwapTxn(commit, Clause(key, ModTarget, Equal, seen.modRevision, []), PutOp(PutOptions(key, Some(value), false, false)));
    if Lookup(Current(commit.log), key) == Some(seen) {
      PutOneKey(commit, key, seen, value);
    }
  }

  lemma PutOneKey(db: Db, key: Str, v: Stored, value: Bytes)
    requires key != [] && Lookup(Current(db.log), key) == Some(v)
    ensures var (after, r) := RunOp(Bump(db), PutOp(PutOptions(key, Some(value), false, false)), db.revision + 1);
            && r.Ok?
            && after.log == db.log + [Entry(db.revision + 1,
                 Event(PutEvent, Stored(key, value, v.createRevision, db.revision + 1, v.version + 1), Some(v)))]
  {
    assert NamespacedKey([], key) == key;
  }

  /** A successful delete removed exactly the version it read. */
  lemma NoLostDelete(read: Db, commit: Db, key: Str)
    requires DbOk(read) && DbOk(commit) && Extends(commit.log, read.log)
    requires key != [] && key in Current(read.log)
    ensures var seen := Current(read.log)[key];
            var (after, r) := Txn(commit, DeleteTxn(key, seen.modRevision));
            && r.Ok?
            && (r.value.succeeded <==> Lookup(Current(commit.log), key) == Some(seen))
            && (r.value.succeeded ==>
                  && History(commit.log, key) == History(read.log, key)
                  && after.log == commit.log + [DeleteEntry(seen, commit.revision + 1)]
                  && Current(after.log) == Current(commit.log) - {key})
            && (!r.value.succeeded ==> after == commit)
  {
    hide DbOk, Current, History, RunOp, Holds, Txn;
    ClauseIdentifies(read, commit, key);
    var seen := Current(read.log)[key];
    var op := DeleteOp(DeleteOptions(key, [], false));
    SwapTxn(commit, Clause(key, ModTarget, Equal, seen.modRevision, []), op);
    if Lookup(Current(commit.log), key) == Some(seen) {
      DeleteOneKey(commit, key, seen);
    }
  }

  lemma DeleteOneKey(db: Db, key: Str, v: Stored)
    requires DbOk(db) && key != [] && Lookup(Current(db.log), key) == Some(v) && v.key == key
    ensures var (after, r) := RunOp(Bump(db), DeleteOp(DeleteOptions(key, [], false)), db.revision + 1);
            && r.Ok?
            && after.log == db.log + [DeleteEntry(v, db.revision + 1)]
            && Current(after.log) == Current(db.log) - {key}
  {
    assert NamespacedKey([], key) == key;
    OnlyDoomed(db, key, v);
    assert [v][..0] == [];
    assert AppendDeletes(Bump(db), [v][..0], db.revision + 1) == Bump(db);
    Extend(db.log, DeleteEntry(v, db.revision + 1), key, 0);
  }

  lemma AtMostOne(values: seq<Stored>, key: Str)
    requires DistinctKeys(values)
    ensures |values| <= 1 || values[0].key != key || values[1].key != key
  {
    if |values| > 1 {
      assert values[0].key != values[1].key;
    }
  }

  lemma OnlyDoomed(db: Db, key: Str, v: Stored)
    requires DbOk(db) && Lookup(Current(db.log), key) == Some(v)
    ensures Doomed(Current(db.log), key, []) == [v]
  {
    var doomed := Doomed(Current(db.log), key, []);
    DoomedFacts(db, key, []);
    AtMostOne(doomed, key);
    assert HasKey(doomed, key);
  }
}
