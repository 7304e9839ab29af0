/** The store's requests as steps over its abstract log. */
module EtcdSpec {
  import opened Options
  import opened Text
  import opened KeyRange
  import opened SortedMaps
  import opened Mvcc

  datatype Error = EmptyKey | Compacted | FutureRevision | KeyNotFound | DuplicateKey | Unsupported

  datatype Result<+T> = Ok(value: T) | Err(error: Error)

  datatype PutOptions = PutOptions(key: Str, value: Option<Bytes>, prevKv: bool, ignoreValue: bool)

  datatype DeleteOptions = DeleteOptions(key: Str, rangeEnd: Str, prevKv: bool)

  datatype SortTarget = ByKey | ByVersion | ByCreate | ByMod | ByValue

  datatype SortOrder = Unordered | Ascend | Descend

  datatype RangeOptions = RangeOptions(
    key: Str, rangeEnd: Str, limit: int, revision: Option<int>, sortTarget: SortTarget, sortOrder: SortOrder,
    keysOnly: bool, countOnly: bool,
    minModRevision: Option<int>, maxModRevision: Option<int>, minCreateRevision: Option<int>, maxCreateRevision: Option<int>)

  datatype PutResponse = PutResponse(revision: nat, prevKv: Option<Stored>)

  datatype DeleteResponse = DeleteResponse(revision: nat, deleted: nat, prevKvs: seq<Stored>)

  datatype RangeResponse = RangeResponse(revision: nat, kvs: seq<Stored>, count: nat, more: bool)

  datatype CompareResult = Equal | Greater | LessThan | NotEqual

  datatype CompareTarget = VersionTarget | CreateTarget | ModTarget | ValueTarget | LeaseTarget

  datatype Clause = Clause(key: Str, target: CompareTarget, result: CompareResult, number: int, value: Bytes)

  datatype Op = RangeOp(range: RangeOptions) | PutOp(put: PutOptions) | DeleteOp(delete: DeleteOptions) | TxnOp

  datatype OpResponse = RangeDone(range: RangeResponse) | PutDone(put: PutResponse) | DeleteDone(delete: DeleteResponse)

  datatype TxnRequest = TxnRequest(compare: seq<Clause>, success: seq<Op>, failure: seq<Op>)

  datatype TxnResponse = TxnResponse(revision: nat, succeeded: bool, responses: seq<OpResponse>)

  /** The store: the current revision, the compaction watermark, how many revisions of a key
      are retained, every event, and the revisions whose events were never published. */
  datatype Db = Db(revision: nat, compacted: nat, retained: nat, log: Log, lost: set<nat>)

  ghost predicate DbOk(db: Db) {
    && db.retained > 0
    && WellFormed(db.log)
    && (forall i :: 0 <= i < |db.log| ==> db.log[i].revision <= db.revision)
    && db.compacted <= db.revision
    && AllTrimmed(db)
  }

  ghost predicate AllTrimmed(db: Db) {
    forall key: Str {:trigger TrimmedBelow(History(db.log, key), db.retained, db.compacted)} ::
      TrimmedBelow(History(db.log, key), db.retained, db.compacted)
  }

  /** Every record trimmed from a history is at or below the watermark. */
  predicate TrimmedBelow(h: seq<Record>, retained: nat, watermark: nat) {
    forall i :: 0 <= i < |h| - retained ==> h[i].modRevision <= watermark
  }

  function Max(a: nat, b: nat): nat {
    if a < b then b else a
  }

  /** The watermark once `h` has been trimmed to `retained` records. */
  function Watermark(h: seq<Record>, retained: nat, compacted: nat): nat {
    if |h| > retained then Max(compacted, h[|h| - retained - 1].modRevision) else compacted
  }

  function Append(db: Db, e: Entry): Db {
    db.(log := db.log + [e], compacted := Watermark(History(db.log + [e], e.Key()), db.retained, db.compacted))
  }

  // ----- put -----

  function PutEntry(existing: Option<Stored>, key: Str, o: PutOptions, revision: nat): Entry {
    var value := if o.ignoreValue && existing.Some? then existing.value.value
                 else if o.value.Some? then o.value.value else [];
    var kv := Stored(key, value,
                     if existing.Some? then existing.value.createRevision else revision,
                     revision,
                     (if existing.Some? then existing.value.version else 0) + 1);
    Entry(revision, Event(PutEvent, kv, existing))
  }

  /** A stored value as a client of `namespace` sees it. */
  function ToPublicKv(v: Stored, namespace: Str, keysOnly: bool): Stored {
    var key := if StartsWith(v.key, namespace) then v.key[|namespace|..] else v.key;
    v.(key := key, value := if keysOnly then [] else v.value)
  }

  function ApplyPut(db: Db, namespace: Str, o: PutOptions, revision: nat): (Db, Result<PutResponse>) {
    var key := NamespacedKey(namespace, o.key);
    var existing := Lookup(Current(db.log), key);
    if o.key == [] then (db, Err(EmptyKey))
    else if o.ignoreValue && existing.None? then (db, Err(KeyNotFound))
    else
      (Append(db, PutEntry(existing, key, o, revision)),
       Ok(PutResponse(revision, if o.prevKv && existing.Some? then Some(ToPublicKv(existing.value, namespace, false)) else None)))
  }

  /** A put takes a revision even when it is then refused. */
  function Put(db: Db, namespace: Str, o: PutOptions): (Db, Result<PutResponse>) {
    ApplyPut(db.(revision := db.revision + 1), namespace, o, db.revision + 1)
  }

  // ----- delete -----

  ghost function KeysIn(s: Snapshot, start: Str, rangeEnd: Str): set<Str> {
    set key | key in s && IsKeyInRange(key, start, rangeEnd)
  }

  function KeyOrder(): (Str, Str) -> int {
    (a, b) => Compare(a, b)
  }

  function RevisionOrder(): (nat, nat) -> int {
    (a, b) => a - b
  }

  lemma KeyOrderIsTotal()
    ensures TotalOrder(KeyOrder())
  {
    var c := KeyOrder();
    forall a: Str, b: Str
      ensures c(a, b) == 0 <==> a == b
      ensures c(a, b) < 0 <==> c(b, a) > 0
    {
      LessTotal(a, b);
      LessIrreflexive(a);
      if Less(a, b) {
        LessAsymmetric(a, b);
      }
    }
    forall a: Str, b: Str, d: Str | c(a, b) < 0 && c(b, d) < 0
      ensures c(a, d) < 0
    {
      LessTransitive(a, b, d);
    }
  }

  /** The live values in a range, in key order. */
  ghost function Doomed(s: Snapshot, start: Str, rangeEnd: Str): (values: seq<Stored>)
    ensures |values| == 0 <==> KeysIn(s, start, rangeEnd) == {}
  {
    KeyOrderIsTotal();
    var keys := SortSet(KeyOrder(), KeysIn(s, start, rangeEnd));
    EmptyListing(KeyOrder(), KeysIn(s, start, rangeEnd), keys);
    seq(|keys|, i requires 0 <= i < |keys| =>
      assert keys[i] in keys;
      s[keys[i]])
  }

  function DeleteEntry(v: Stored, revision: nat): Entry {
    Entry(revision, Event(DeleteEvent, v.(modRevision := revision), Some(v)))
  }

  function AppendDeletes(db: Db, doomed: seq<Stored>, revision: nat): Db {
    if doomed == [] then db
    else Append(AppendDeletes(db, doomed[..|doomed| - 1], revision), DeleteEntry(doomed[|doomed| - 1], revision))
  }

  predicate RangeRequestOk(key: Str, rangeEnd: Str) {
    key != [] || rangeEnd == ZERO_KEY
  }

  function PublicKvs(values: seq<Stored>, namespace: Str): seq<Stored> {
    seq(|values|, i requires 0 <= i < |values| => ToPublicKv(values[i], namespace, false))
  }

  /** The deletions of a request whose doomed values are already collected. */
  function ApplyDelete(db: Db, namespace: Str, o: DeleteOptions, revision: nat, doomed: seq<Stored>): (Db, DeleteResponse) {
    (AppendDeletes(db, doomed, revision),
     DeleteResponse(revision, |doomed|, if o.prevKv then PublicKvs(doomed, namespace) else []))
  }

  ghost function DoomedBy(db: Db, namespace: Str, o: DeleteOptions): seq<Stored> {
    Doomed(Current(db.log), NamespacedKey(namespace, o.key), NamespacedRangeEnd(namespace, o.rangeEnd))
  }

  /** A delete takes a revision only when some key is deleted. */
  ghost function Delete(db: Db, namespace: Str, o: DeleteOptions): (Db, Result<DeleteResponse>) {
    if !RangeRequestOk(o.key, o.rangeEnd) then (db, Err(EmptyKey))
    else
      var doomed := DoomedBy(db, namespace, o);
      if doomed == [] then (db, Ok(DeleteResponse(db.revision, 0, [])))
      else
        var (db', response) := ApplyDelete(db.(revision := db.revision + 1), namespace, o, db.revision + 1, doomed);
        (db', Ok(response))
  }

  // ----- range -----

  /** What the retained records of a key show at a revision. */
  function Visible(db: Db, revision: nat, key: Str): Option<Stored> {
    Resolve(FindAt(Keep(History(db.log, key), db.retained), revision))
  }

  function KeysOf(log: Log): set<Str> {
    set i | 0 <= i < |log| :: log[i].Key()
  }

  predicate PassesRangeFilters(v: Stored, o: RangeOptions) {
    && (o.minModRevision.Some? ==> v.modRevision >= o.minModRevision.value)
    && (o.maxModRevision.Some? ==> v.modRevision <= o.maxModRevision.value)
    && (o.minCreateRevision.Some? ==> v.createRevision >= o.minCreateRevision.value)
    && (o.maxCreateRevision.Some? ==> v.createRevision <= o.maxCreateRevision.value)
  }

  /** A sort key: a number is a one-element primary, text is its units. */
  datatype SortKey = SortKey(primary: seq<int>, key: Str)

  function MakeSortKey(v: Stored, target: SortTarget): SortKey {
    match target
    case ByCreate => SortKey([v.createRevision], v.key)
    case ByMod => SortKey([v.modRevision], v.key)
    case ByVersion => SortKey([v.version], v.key)
    case ByValue => SortKey(v.value, v.key)
    case ByKey => SortKey(v.key, v.key)
  }

  function CompareSortKeys(left: SortKey, right: SortKey, order: SortOrder): int {
    var factor := if order.Descend? then -1 else 1;
    if Less(left.primary, right.primary) then -1 * factor
    else if Less(right.primary, left.primary) then 1 * factor
    else Compare(left.key, right.key)
  }

  function Comparator(order: SortOrder): (SortKey, SortKey) -> int {
    (left, right) => CompareSortKeys(left, right, order)
  }

  lemma ComparatorIsTotal(order: SortOrder)
    ensures TotalOrder(Comparator(order))
  {
    var c := Comparator(order);
    forall a, b
      ensures c(a, b) == 0 <==> a == b
      ensures c(a, b) < 0 <==> c(b, a) > 0
    {
      SortKeysAntisymmetric(a, b, order);
    }
    forall a, b, d | c(a, b) < 0 && c(b, d) < 0
      ensures c(a, d) < 0
    {
      SortKeysTransitive(a, b, d, order);
    }
  }

  lemma SortKeysAntisymmetric(a: SortKey, b: SortKey, order: SortOrder)
    ensures CompareSortKeys(a, b, order) == 0 <==> a == b
    ensures CompareSortKeys(a, b, order) < 0 <==> CompareSortKeys(b, a, order) > 0
  {
    LessTotal(a.primary, b.primary);
    LessIrreflexive(a.primary);
    LessTotal(a.key, b.key);
    LessIrreflexive(a.key);
    if Less(a.primary, b.primary) {
      LessAsymmetric(a.primary, b.primary);
    }
    if Less(a.key, b.key) {
      LessAsymmetric(a.key, b.key);
    }
  }

  lemma SortKeysTransitive(a: SortKey, b: SortKey, c: SortKey, order: SortOrder)
    requires CompareSortKeys(a, b, order) < 0 && CompareSortKeys(b, c, order) < 0
    ensures CompareSortKeys(a, c, order) < 0
  {
    SortKeysAntisymmetric(a, b, order);
    SortKeysAntisymmetric(b, c, order);
    LessTotal(a.primary, b.primary);
    LessTotal(b.primary, c.primary);
    if Less(a.primary, b.primary) && Less(b.primary, c.primary) {
      LessTransitive(a.primary, b.primary, c.primary);
    }
    if Less(c.primary, b.primary) && Less(b.primary, a.primary) {
      LessTransitive(c.primary, b.primary, a.primary);
      LessAsymmetric(c.primary, a.primary);
    }
    if a.primary == b.primary == c.primary {
      LessIrreflexive(a.primary);
      LessTransitive(a.key, b.key, c.key);
    }
  }

  /** The values a read may return, under the sort keys that order them. */
  ghost function Matches(db: Db, revision: nat, namespace: Str, o: RangeOptions): map<SortKey, Stored> {
    var start, rangeEnd := NamespacedKey(namespace, o.key), NamespacedRangeEnd(namespace, o.rangeEnd);
    var found := set key | key in KeysOf(db.log) && IsKeyInRange(key, start, rangeEnd)
                         && Visible(db, revision, key).Some? && PassesRangeFilters(Visible(db, revision, key).value, o)
                 :: MakeSortKey(Visible(db, revision, key).value, o.sortTarget);
    map sk | sk in found && Visible(db, revision, sk.key).Some? :: Visible(db, revision, sk.key).value
  }

  function Truncate<T>(s: seq<T>, limit: int): seq<T> {
    if 0 < limit < |s| then s[..limit] else s
  }

  /** The truncated listing of the matches in sort order, and their full number. */
  ghost function RangeOver(matches: map<SortKey, Stored>, revision: nat, namespace: Str, o: RangeOptions): RangeResponse {
    ComparatorIsTotal(o.sortOrder);
    var keys := SortSet(Comparator(o.sortOrder), matches.Keys);
    var all := seq(|keys|, i requires 0 <= i < |keys| =>
                   assert keys[i] in keys;
                   ToPublicKv(matches[keys[i]], namespace, o.keysOnly));
    RangeResponse(revision, if o.countOnly then [] else Truncate(all, o.limit), |keys|, 0 < o.limit < |keys|)
  }

  function ResolveRevision(db: Db, requested: Option<int>): Result<nat> {
    if requested.None? || requested.value <= 0 then Ok(db.revision)
    else if requested.value > db.revision then Err(FutureRevision)
    else Ok(requested.value)
  }

  ghost function Range(db: Db, namespace: Str, o: RangeOptions): Result<RangeResponse> {
    if !RangeRequestOk(o.key, o.rangeEnd) then Err(EmptyKey)
    else
      var revision := ResolveRevision(db, o.revision);
      if revision.Err? then Err(revision.error)
      else if o.revision.Some? && 0 < o.revision.value <= db.compacted then Err(Compacted)
      else Ok(RangeOver(Matches(db, revision.value, namespace, o), revision.value, namespace, o))
  }

  // ----- transactions -----

  /** What a clause compares, as text; a number is a one-element text. */
  function LeftSide(current: Option<Stored>, c: Clause): seq<int> {
    match c.target
    case ValueTarget => if current.Some? then current.value.value else []
    case CreateTarget => [if current.Some? then current.value.createRevision else 0]
    case ModTarget => [if current.Some? then current.value.modRevision else 0]
    case LeaseTarget => [0]
    case VersionTarget => [if current.Some? then current.value.version else 0]
  }

  predicate Holds(current: Option<Stored>, c: Clause) {
    var left := LeftSide(current, c);
    var right: seq<int> := if c.target.ValueTarget? then c.value else [c.number];
    match c.result
    case Greater => Less(right, left)
    case LessThan => Less(left, right)
    case NotEqual => left != right
    case Equal => left == right
  }

  predicate Writes(op: Op) {
    op.PutOp? || op.DeleteOp?
  }

  /** The keys a write addresses. */
  function WriteStart(op: Op): Str
    requires Writes(op)
  {
    if op.PutOp? then op.put.key else op.delete.key
  }

  function WriteEnd(op: Op): Str
    requires Writes(op)
  {
    if op.PutOp? then [] else op.delete.rangeEnd
  }

  predicate InWrite(op: Op, key: Str) {
    Writes(op) && IsKeyInRange(key, WriteStart(op), WriteEnd(op))
  }

  /** No two writes of a transaction overlap. */
  predicate WriteRangesValid(ops: seq<Op>) {
    forall i, j :: 0 <= i < j < |ops| && Writes(ops[i]) && Writes(ops[j]) ==>
                     !RangesOverlap(WriteStart(ops[i]), WriteEnd(ops[i]), WriteStart(ops[j]), WriteEnd(ops[j]))
  }

  ghost function RunOp(db: Db, op: Op, revision: nat): (Db, Result<OpResponse>) {
    match op
    case RangeOp(o) =>
      var r := Range(db, [], o);
      if r.Ok? then (db, Ok(RangeDone(r.value))) else (db, Err(r.error))
    case PutOp(o) =>
      var (db', r) := ApplyPut(db, [], o, revision);
      if r.Ok? then (db', Ok(PutDone(r.value))) else (db', Err(r.error))
    case DeleteOp(o) =>
      if !RangeRequestOk(o.key, o.rangeEnd) then (db, Err(EmptyKey))
      else
        var doomed := DoomedBy(db, [], o);
        if doomed == [] then (db, Ok(DeleteDone(DeleteResponse(revision, 0, []))))
        else
          var (db', response) := ApplyDelete(db, [], o, revision, doomed);
          (db', Ok(DeleteDone(response)))
    case TxnOp => (db, Err(Unsupported))
  }

  /** The operations in order, up to the first that is refused. */
  ghost function RunOps(db: Db, ops: seq<Op>, revision: nat): (Db, Result<seq<OpResponse>>) {
    if ops == [] then (db, Ok([]))
    else
      var (before, responses) := RunOps(db, ops[..|ops| - 1], revision);
      if responses.Err? then (before, responses)
      else
        var (after, r) := RunOp(before, ops[|ops| - 1], revision);
        (after, if r.Ok? then Ok(responses.value + [r.value]) else Err(r.error))
  }

  predicate Succeeds(db: Db, t: TxnRequest) {
    forall i :: 0 <= i < |t.compare| ==> Holds(Lookup(Current(db.log), t.compare[i].key), t.compare[i])
  }

  predicate AnyWrites(ops: seq<Op>) {
    exists i :: 0 <= i < |ops| && Writes(ops[i])
  }

  function Chosen(db: Db, t: TxnRequest): seq<Op> {
    if Succeeds(db, t) then t.success else t.failure
  }

  /** The operations of a transaction run at one new revision, or at the current one when none writes. */
  function TxnStart(db: Db, ops: seq<Op>): Db {
    if AnyWrites(ops) then db.(revision := db.revision + 1) else db
  }

  /** A transaction that is refused midway keeps what it had written, and publishes none of it. */
  ghost function Txn(db: Db, t: TxnRequest): (Db, Result<TxnResponse>) {
    var ops := Chosen(db, t);
    if !WriteRangesValid(ops) then (db, Err(DuplicateKey))
    else
      var start := TxnStart(db, ops);
      var (after, r) := RunOps(start, ops, start.revision);
      if r.Ok? then (after, Ok(TxnResponse(start.revision, Succeeds(db, t), r.value)))
      else if AnyWrites(ops) then (after.(lost := after.lost + {start.revision}), Err(r.error))
      else (after, Err(r.error))
  }

  function Compact(db: Db, requested: Option<int>): (Db, Result<()>) {
    var revision := ResolveRevision(db, requested);
    if revision.Err? then (db, Err(revision.error))
    else (db.(compacted := Max(db.compacted, revision.value)), Ok(()))
  }
}
