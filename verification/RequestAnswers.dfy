/** What the writing requests and the clauses of a transaction mean to a client. */
module RequestAnswers {
  import opened Options
  import opened Text
  import opened KeyRange
  import opened SortedMaps
  import opened Mvcc
  import opened EtcdSpec
  import opened EtcdProofs
  import opened RangeAnswers

  // ----- puts -----

  /** The live value that a put leaves. */
  ghost predicate PutLeaves(before: Snapshot, after: Snapshot, key: Str, o: PutOptions, revision: nat) {
    && key in after && after - {key} == before - {key}
    && var v := after[key];
    && v.key == key && v.modRevision == revision
    && v.value == (if o.ignoreValue && key in before then before[key].value else if o.value.Some? then o.value.value else [])
    && if key in before then v.version == before[key].version + 1 && v.createRevision == before[key].createRevision
       else v.version == 1 && v.createRevision == revision
  }

  /** A previous value as the client that asked for it sees it. */
  predicate PrevShown(live: Option<Stored>, prevKv: bool, namespace: Str, shown: Option<Stored>) {
    if prevKv && live.Some? then shown.Some? && Shows(live.value, shown.value, namespace, false) else shown.None?
  }

  /** Every put takes a revision. It is refused for an empty key, or to keep the value of a key that
      has none; otherwise it leaves one new version of its key, and changes no other. */
  lemma PutAnswers(db: Db, namespace: Str, o: PutOptions)
    ensures var (after, r) := Put(db, namespace, o);
            var key, live := namespace + o.key, Current(db.log);
            && after.revision == db.revision + 1 && after.lost == db.lost
            && if o.key == [] then r == Err(EmptyKey) && after.log == db.log
               else if o.ignoreValue && key !in live then r == Err(KeyNotFound) && after.log == db.log
               else
                 && r.Ok? && r.value.revision == db.revision + 1
                 && PutLeaves(live, Current(after.log), key, o, db.revision + 1)
                 && PrevShown(Lookup(live, key), o.prevKv, namespace, r.value.prevKv)
  {
    hide Current;
    var key := namespace + o.key;
    var existing := Lookup(Current(db.log), key);
    Extend(db.log, PutEntry(existing, key, o, db.revision + 1), key, 0);
    if existing.Some? {
      PublicShows(existing.value, namespace, false);
    }
  }

  // ----- deletes -----

  /** The live values of a range, in key order. */
  ghost predicate ListsRange(live: Snapshot, start: Str, rangeEnd: Str, values: seq<Stored>) {
    && (forall i, j :: 0 <= i < j < |values| ==> Less(values[i].key, values[j].key))
    && forall v: Stored :: v in values <==> Lookup(live, v.key) == Some(v) && IsKeyInRange(v.key, start, rangeEnd)
  }

  ghost function DoomedKeys(live: Snapshot, start: Str, rangeEnd: Str): (keys: seq<Str>)
    ensures forall i, j :: 0 <= i < j < |keys| ==> Less(keys[i], keys[j])
    ensures forall i :: 0 <= i < |keys| ==> keys[i] in live
  {
    KeyOrderIsTotal();
    var keys := SortSet(KeyOrder(), KeysIn(live, start, rangeEnd));
    KeysSorted(live, start, rangeEnd, keys);
    keys
  }

  lemma KeysSorted(live: Snapshot, start: Str, rangeEnd: Str, keys: seq<Str>)
    requires TotalOrder(KeyOrder()) && IsListing(KeyOrder(), KeysIn(live, start, rangeEnd), keys)
    ensures forall i, j :: 0 <= i < j < |keys| ==> Less(keys[i], keys[j])
    ensures forall i :: 0 <= i < |keys| ==> keys[i] in live
  {
    hide TotalOrder, IsKeyInRange;
    forall i, j | 0 <= i < j < |keys|
      ensures Less(keys[i], keys[j])
    {
      assert KeyOrder()(keys[i], keys[j]) < 0;
    }
    forall i | 0 <= i < |keys|
      ensures keys[i] in live
    {
      assert keys[i] in keys;
    }
  }

  lemma DoomedAt(db: Db, start: Str, rangeEnd: Str, i: nat)
    requires DbOk(db) && i < |Doomed(Current(db.log), start, rangeEnd)|
    ensures var keys := DoomedKeys(Current(db.log), start, rangeEnd);
            i < |keys| && Doomed(Current(db.log), start, rangeEnd)[i].key == keys[i]
  {
    hide IsKeyInRange;
    LiveMatchesHistory(db.log, DoomedKeys(Current(db.log), start, rangeEnd)[i]);
  }

  lemma DoomedSorted(db: Db, start: Str, rangeEnd: Str, i: nat, j: nat)
    requires DbOk(db) && i < j < |Doomed(Current(db.log), start, rangeEnd)|
    ensures Less(Doomed(Current(db.log), start, rangeEnd)[i].key, Doomed(Current(db.log), start, rangeEnd)[j].key)
  {
    hide DbOk, Current, IsKeyInRange, Doomed, DoomedKeys, Less;
    DoomedAt(db, start, rangeEnd, i);
    DoomedAt(db, start, rangeEnd, j);
  }

  lemma DoomedInOrder(db: Db, start: Str, rangeEnd: Str)
    requires DbOk(db)
    ensures ListsRange(Current(db.log), start, rangeEnd, Doomed(Current(db.log), start, rangeEnd))
  {
    hide DbOk, Current, IsKeyInRange, Doomed, Less;
    var s := Current(db.log);
    var doomed := Doomed(s, start, rangeEnd);
    DoomedFacts(db, start, rangeEnd);
    forall i, j | 0 <= i < j < |doomed|
      ensures Less(doomed[i].key, doomed[j].key)
    {
      DoomedSorted(db, start, rangeEnd, i, j);
    }
    forall v: Stored | Lookup(s, v.key) == Some(v) && IsKeyInRange(v.key, start, rangeEnd)
      ensures v in doomed
    {
      assert HasKey(doomed, v.key);
      var i :| 0 <= i < |doomed| && doomed[i].key == v.key;
      assert Lookup(s, doomed[i].key) == Some(doomed[i]);
    }
  }

  /** The previous values that a delete shows: all of them in order if asked for, else none. */
  predicate AllShown(values: seq<Stored>, prevKv: bool, namespace: Str, shown: seq<Stored>) {
    if prevKv then |shown| == |values| && forall i :: 0 <= i < |shown| ==> Shows(values[i], shown[i], namespace, false)
    else shown == []
  }

  /** A delete takes the live values of its range away, tells how many they were and, if asked, what they
      were, and takes a revision only if there are any. */
  lemma DeleteAnswers(db: Db, namespace: Str, o: DeleteOptions) returns (doomed: seq<Stored>)
    requires DbOk(db)
    ensures ListsRange(Current(db.log), namespace + o.key, NamespacedRangeEnd(namespace, o.rangeEnd), doomed)
    ensures var (after, r) := Delete(db, namespace, o);
            if o.key == [] && o.rangeEnd != [0] then r == Err(EmptyKey) && after == db
            else
              && r.Ok? && after.lost == db.lost && after.revision == db.revision + (if doomed == [] then 0 else 1)
              && r.value.revision == after.revision && r.value.deleted == |doomed| && AllShown(doomed, o.prevKv, namespace, r.value.prevKvs)
              && (doomed == [] ==> after == db)
              && forall key: Str :: Lookup(Current(after.log), key) == if HasKey(doomed, key) then None else Lookup(Current(db.log), key)
  {
    doomed := DoomedBy(db, namespace, o);
    DoomedInOrder(db, namespace + o.key, NamespacedRangeEnd(namespace, o.rangeEnd));
    hide DbOk, Current, Doomed, IsKeyInRange, AppendDeletes, ListsRange;
    if RangeRequestOk(o.key, o.rangeEnd) {
      var after := Delete(db, namespace, o).0;
      DeleteOutcome(db, namespace, o);
      assert doomed != [] ==> Deleted(Bump(db), after, doomed, db.revision + 1);
      forall key: Str
        ensures Lookup(Current(after.log), key) == if HasKey(doomed, key) then None else Lookup(Current(db.log), key)
      {
        if doomed != [] && !HasKey(doomed, key) {
          assert SameKey(after, Bump(db), key);
        }
      }
      forall i | 0 <= i < |doomed|
        ensures Shows(doomed[i], ToPublicKv(doomed[i], namespace, false), namespace, false)
      {
        PublicShows(doomed[i], namespace, false);
      }
    }
  }

  // ----- transactions and compaction -----

  /** Whether two numbers compare as a clause asks. */
  predicate NumbersCompare(left: int, result: CompareResult, right: int) {
    match result
    case Equal => left == right
    case NotEqual => left != right
    case Greater => left > right
    case LessThan => left < right
  }

  /** A clause on a number compares that of the live value, or 0 if there is none. */
  lemma ClauseOnNumber(current: Option<Stored>, c: Clause)
    requires !c.target.ValueTarget?
    ensures var live := match c.target
                        case VersionTarget => if current.Some? then current.value.version else 0
                        case CreateTarget => if current.Some? then current.value.createRevision else 0
                        case ModTarget => if current.Some? then current.value.modRevision else 0
                        case _ => 0;
            Holds(current, c) <==> NumbersCompare(live, c.result, c.number)
  {
    OneDigit(c.number, LeftSide(current, c)[0]);
    assert LeftSide(current, c) == [LeftSide(current, c)[0]];
  }

  /** A clause on a value compares the live one, or an empty one, in the order of their texts. */
  lemma ClauseOnValue(current: Option<Stored>, c: Clause)
    requires c.target.ValueTarget?
    ensures var live: seq<int> := if current.Some? then current.value.value else [];
            Holds(current, c) <==> match c.result
                                   case Equal => live == c.value
                                   case NotEqual => live != c.value
                                   case Greater => Less(c.value, live)
                                   case LessThan => Less(live, c.value)
  {
  }

  /** An accepted transaction runs the operations that its clauses choose, at one new revision if any of
      them writes, else changing nothing; each is answered at its place, on what those before it left. */
  lemma TxnAnswers(db: Db, t: TxnRequest)
    ensures var (after, r) := Txn(db, t);
            var holds := forall i :: 0 <= i < |t.compare| ==> Holds(Lookup(Current(db.log), t.compare[i].key), t.compare[i]);
            var ops := if holds then t.success else t.failure;
            var writing := exists i :: 0 <= i < |ops| && (ops[i].PutOp? || ops[i].DeleteOp?);
            && (r.Ok? ==>
                  && r.value.succeeded == holds && r.value.revision == (if writing then db.revision + 1 else db.revision)
                  && |r.value.responses| == |ops| && after.revision == r.value.revision && after.lost == db.lost
                  && (!writing ==> after == db)
                  && forall i :: 0 <= i < |ops| ==> AnsweredInTurn(db, ops, i, r.value.revision, r.value.responses[i]))
            && (r.Err? && writing ==> after == db || db.revision + 1 in after.lost)
  {
    hide Current, RunOps, RunOp, WriteRangesValid, Holds;
    var ops := Chosen(db, t);
    var start := TxnStart(db, ops);
    assert AnyWrites(ops) <==> exists i :: 0 <= i < |ops| && (ops[i].PutOp? || ops[i].DeleteOp?);
    EachInTurn(start, ops, start.revision);
    hide Chosen, TxnStart;
    if Txn(db, t).1.Ok? {
      var (after, r) := RunOps(start, ops, start.revision);
      RunFrame(start, ops, start.revision);
      forall i | 0 <= i < |ops|
        ensures AnsweredInTurn(db, ops, i, start.revision, r.value[i])
      {
        StartOf(db, ops);
      }
    }
  }

  lemma StartOf(db: Db, ops: seq<Op>)
    ensures TxnStart(db, ops) == db.(revision := if AnyWrites(ops) then db.revision + 1 else db.revision)
  {
  }

  /** The answer of one operation of a transaction, run on what the operations before it left. */
  ghost predicate AnsweredInTurn(db: Db, ops: seq<Op>, i: nat, revision: nat, response: OpResponse)
    requires i < |ops|
  {
    RunOp(RunOps(db.(revision := revision), ops[..i], revision).0, ops[i], revision).1 == Ok(response)
  }

  lemma {:induction false} EachInTurn(start: Db, ops: seq<Op>, revision: nat)
    ensures var (after, r) := RunOps(start, ops, revision);
            r.Ok? ==> && |r.value| == |ops|
                      && forall i :: 0 <= i < |ops| ==> RunOp(RunOps(start, ops[..i], revision).0, ops[i], revision).1 == Ok(r.value[i])
  {
    hide RunOp;
    if ops != [] {
      var init := ops[..|ops| - 1];
      EachInTurn(start, init, revision);
      forall i | 0 <= i < |init|
        ensures ops[..i] == init[..i] && ops[i] == init[i]
      {
      }
    }
  }

  /** Operations write to the log and nothing else, and only if one of them writes. */
  lemma {:induction false} RunFrame(start: Db, ops: seq<Op>, revision: nat)
    ensures var after := RunOps(start, ops, revision).0;
            && after.revision == start.revision && after.lost == start.lost
            && (!AnyWrites(ops) ==> after == start)
  {
    if ops != [] {
      var init, last := ops[..|ops| - 1], ops[|ops| - 1];
      RunFrame(start, init, revision);
      OpFrame(RunOps(start, init, revision).0, last, revision);
      hide RunOp, Writes;
      assert forall i :: 0 <= i < |init| ==> init[i] == ops[i];
      assert AnyWrites(init) ==> AnyWrites(ops);
    }
  }

  lemma OpFrame(db: Db, op: Op, revision: nat)
    ensures var after := RunOp(db, op, revision).0;
            after.revision == db.revision && after.lost == db.lost && (!Writes(op) ==> after == db)
  {
    hide AppendDeletes, Doomed, Current, IsKeyInRange, Range;
    if op.DeleteOp? {
      DeletesFrame(db, DoomedBy(db, [], op.delete), revision);
    }
  }

  lemma {:induction false} DeletesFrame(db: Db, doomed: seq<Stored>, revision: nat)
    ensures var after := AppendDeletes(db, doomed, revision); after.revision == db.revision && after.lost == db.lost
  {
    if doomed != [] {
      DeletesFrame(db, doomed[..|doomed| - 1], revision);
    }
  }

  /** A compaction makes all revisions up to the one it names unavailable, or up to the current one if
      it names none; it is refused exactly if it names one that is still to come. */
  lemma CompactAnswers(db: Db, requested: Option<int>)
    ensures var (after, r) := Compact(db, requested);
            var upTo := if requested.Some? && requested.value > 0 then requested.value else db.revision;
            && (r.Ok? <==> upTo <= db.revision) && (r.Err? ==> r == Err(FutureRevision) && after == db)
            && (r.Ok? ==> after == db.(compacted := after.compacted) && after.compacted == if upTo < db.compacted then db.compacted else upTo)
  {
  }
}
