/** The in-memory store with its sorted structures and live watchers, shown to do exactly what
    the abstract log says. */
module Etcd {
  import opened Options
  import opened Text
  import opened KeyRange
  import opened SortedMaps
  import opened Mvcc
  import opened EtcdSpec
  import opened EtcdProofs
  import opened Watches

  /** Each key's retained records are the newest ones of its history. */
  ghost predicate HistoriesOk(contents: map<Str, seq<Record>>, db: Db) {
    && (forall key: Str :: key in contents <==> History(db.log, key) != [])
    && (forall key: Str :: key in contents ==> contents[key] == Keep(History(db.log, key), db.retained))
  }

  /** Every event above the watermark is retained, grouped by its revision. */
  ghost predicate HistoryOk(contents: map<nat, seq<Entry>>, db: Db) {
    && (forall r :: r in contents ==> 0 < r <= db.revision && contents[r] == At(db.log, r))
    && (forall r: nat :: db.compacted < r && At(db.log, r) != [] ==> r in contents)
  }

  /** The sorted structures agree with the log. */
  ghost predicate Agrees(histories: map<Str, seq<Record>>, history: map<nat, seq<Entry>>, db: Db) {
    DbOk(db) && HistoriesOk(histories, db) && HistoryOk(history, db)
  }

  lemma AgreesMeansOk(histories: map<Str, seq<Record>>, history: map<nat, seq<Entry>>, db: Db)
    requires Agrees(histories, history, db)
    ensures DbOk(db) && HistoryOk(history, db) && db.compacted <= db.revision
  {
  }

  /** A new revision changes nothing that the structures hold, and nothing has its number yet. */
  lemma BumpAgrees(histories: map<Str, seq<Record>>, history: map<nat, seq<Entry>>, db: Db)
    requires Agrees(histories, history, db)
    ensures Agrees(histories, history, Bump(db)) && AllOlder(Bump(db), db.revision + 1)
    ensures db.compacted <= db.revision && forall i :: 0 <= i < |db.log| ==> db.log[i].revision <= db.revision
  {
    BumpKeepsOk(db);
  }

  lemma RevisionOrderIsTotal()
    ensures TotalOrder(RevisionOrder())
  {
  }

  lemma EmptyAgrees(retained: nat)
    requires retained > 0
    ensures Agrees(map[], map[], Db(0, 0, retained, [], {}))
  {
  }

  lemma LostLater(lost0: set<nat>, lost: set<nat>, connectedAt: nat, revision: nat)
    requires lost == lost0 || lost == lost0 + {revision}
    ensures forall r: nat :: r < revision ==> (Silent(lost, connectedAt, r) <==> Silent(lost0, connectedAt, r))
  {
  }

  lemma StartsNow(startRevision: Option<int>, compacted: nat, connectedAt: nat)
    requires startRevision.None? || startRevision.value <= compacted
    ensures EffectiveStart(startRevision, compacted, connectedAt) == connectedAt + 1
  {
  }

  lemma DeleteEntriesAppend(doomed: seq<Stored>, i: nat, revision: nat)
    requires i < |doomed|
    ensures DeleteEntries(doomed[..i + 1], revision) == DeleteEntries(doomed[..i], revision) + [DeleteEntry(doomed[i], revision)]
    ensures doomed[..i + 1][..i] == doomed[..i]
  {
  }

  /** A client of the store that is told of events. */
  class WatcherImpl {
    const id: nat
    const spec: WatchSpec
    const startRevision: Option<int>
    var connected: bool
    var ended: bool
    var delivered: seq<Response>
    ghost var from: nat
    ghost var connectedAt: nat
    ghost var compactedAt: nat

    constructor (id: nat, spec: WatchSpec, startRevision: Option<int>)
      ensures this.id == id && this.spec == spec && this.startRevision == startRevision
      ensures !connected && !ended && delivered == []
    {
      this.id, this.spec, this.startRevision := id, spec, startRevision;
      connected, ended, delivered := false, false, [];
      from, connectedAt, compactedAt := 0, 0, 0;
    }

    /** Everything owed up to revision `upTo` has been delivered, and nothing else. */
    ghost predicate Sound(log: Log, lost: set<nat>, upTo: nat)
      reads this
    {
      if connected then
        && !ended
        && compactedAt <= connectedAt <= upTo
        && from == EffectiveStart(startRevision, compactedAt, connectedAt)
        && delivered == Deliveries(spec, log, from, upTo, lost, connectedAt)
      else delivered == []
    }

    method HandleMany(records: seq<Entry>, ghost revision: nat)
      requires forall i :: 0 <= i < |records| ==> records[i].revision == revision
      modifies this`delivered
      ensures delivered == if connected && !ended then old(delivered) + Respond(spec, revision, records) else old(delivered)
    {
      if !connected || ended {
        return;
      }
      var rangeKey := NamespacedKey(spec.namespace, spec.key);
      var rangeEnd := NamespacedRangeEnd(spec.namespace, spec.rangeEnd);
      var matched: seq<Event> := [];
      var responseRevision: Option<nat> := None;
      for i := 0 to |records|
        invariant matched == Shows(spec, records[..i])
        invariant matched != [] ==> responseRevision == Some(revision)
      {
        assert records[..i + 1][..i] == records[..i];
        var record := records[i];
        if !IsKeyInRange(record.event.kv.key, rangeKey, rangeEnd) {
          continue;
        }
        if record.event.kind in spec.filters {
          continue;
        }
        var kv := record.event.kv.(key := UnprefixKey(record.event.kv.key, spec.namespace));
        var prev: Option<Stored> := None;
        if spec.prevKv && record.event.prev.Some? {
          prev := Some(record.event.prev.value.(key := UnprefixKey(record.event.prev.value.key, spec.namespace)));
        }
        matched := matched + [Event(record.event.kind, kv, prev)];
        responseRevision := Some(record.revision);
      }
      assert records[..|records|] == records;
      if |matched| == 0 || responseRevision.None? {
        assert delivered + [] == delivered;
        return;
      }
      delivered := delivered + [Response(responseRevision.value, matched)];
    }

    method Connect()
      modifies this`connected
      ensures connected == (old(connected) || !ended)
    {
      if connected || ended {
        return;
      }
      connected := true;
    }

    method End()
      modifies this`ended, this`connected
      ensures ended && (!old(ended) ==> !connected)
    {
      if ended {
        return;
      }
      ended := true;
      connected := false;
    }
  }

  class FakeState {
    var revision: nat
    var nextWatchId: nat
    var compactedRevision: nat
    const retainedRevisions: nat
    const histories: SortedMap<Str, seq<Record>>
    const history: SortedMap<nat, seq<Entry>>
    var watchers: seq<WatcherImpl>
    ghost var log: Log
    ghost var lost: set<nat>

    ghost function View(): Db
      reads this
    {
      Db(revision, compactedRevision, retainedRevisions, log, lost)
    }

    ghost predicate StoreOk()
      reads this, histories, history
    {
      && histories as object != history
      && histories.Valid() && histories.compareKeys == KeyOrder()
      && history.Valid() && history.compareKeys == RevisionOrder()
      && Agrees(histories.Contents(), history.Contents(), View())
      && (forall r :: r in lost ==> r <= revision)
    }

    ghost predicate WatchersSound(log: Log, lost: set<nat>, upTo: nat)
      reads this`watchers, watchers
    {
      && (forall i, j :: 0 <= i < j < |watchers| ==> watchers[i] != watchers[j])
      && (forall i :: 0 <= i < |watchers| ==> watchers[i].Sound(log, lost, upTo))
    }

    /** In every state between requests: the structures agree with the log, and every attached
        watcher has been delivered exactly what it is owed so far. */
    ghost predicate Valid()
      reads this, histories, history, watchers
    {
      StoreOk() && WatchersSound(log, lost, revision)
    }

    constructor (retained: nat)
      requires retained > 0
      ensures Valid() && fresh(histories) && fresh(history) && View() == Db(0, 0, retained, [], {}) && watchers == []
    {
      hide Agrees, TotalOrder;
      KeyOrderIsTotal();
      RevisionOrderIsTotal();
      EmptyAgrees(retained);
      revision, nextWatchId, compactedRevision := 0, 1, 0;
      retainedRevisions := retained;
      histories := new SortedMap<Str, seq<Record>>(KeyOrder());
      history := new SortedMap<nat, seq<Entry>>(RevisionOrder());
      watchers := [];
      log, lost := [], {};
    }

    method BumpRevision()
      requires StoreOk()
      modifies this`revision
      ensures StoreOk() && View() == Bump(old(View()))
      ensures compactedRevision < revision && revision !in lost && AllOlder(View(), revision)
      ensures forall i :: 0 <= i < |log| ==> log[i].revision < revision
    {
      hide Agrees, AllOlder;
      BumpAgrees(histories.Contents(), history.Contents(), View());
      revision := revision + 1;
    }

    /** Records one event: in the log of its revision, and at the end of its key's history, whose
        oldest records are dropped beyond the retention. */
    method AppendRevision(key: Str, record: Record, event: Event) returns (entry: Entry)
      requires StoreOk() && compactedRevision < revision
      requires key == event.kv.key && record == RecordOf(Entry(revision, event))
      requires EventOk(Current(log), Entry(revision, event)) && Older(View(), key, revision)
      modifies this`log, this`compactedRevision, histories, history
      ensures StoreOk() && compactedRevision < revision
      ensures entry == Entry(revision, event) && View() == Append(old(View()), entry)
    {
      hide DbOk, HistoriesOk, HistoryOk, History, Keep, TotalOrder, Sorted, ToMap, EventOk, Current, Increasing;
      entry := Entry(revision, event);
      ghost var before := View();
      ghost var kept, batches := histories.Contents(), history.Contents();
      KeepStep(before, entry, kept);
      AppendAgrees(before, entry, histories.Contents(), history.Contents());

      var batch := history.Get(revision);
      var grown := (if batch.Some? then batch.value else []) + [entry];
      assert grown == Batch(batches, revision) + [entry];
      var retained := histories.Get(key);
      var revisions := (if retained.Some? then retained.value else []) + [record];
      assert revisions == Kept(kept, key) + [record];
      var watermark;
      revisions, watermark := TrimRevisions(revisions, retainedRevisions, compactedRevision);
      assert revisions == Keep(History(before.log, key) + [record], before.retained);

      StoreRevision(key, revisions, grown, watermark, entry);
    }

    method StoreRevision(key: Str, revisions: seq<Record>, batch: seq<Entry>, watermark: nat, ghost entry: Entry)
      requires histories as object != history && histories.Valid() && history.Valid()
      modifies this`log, this`compactedRevision, histories, history
      ensures histories.Valid() && history.Valid()
      ensures histories.Contents() == old(histories.Contents())[key := revisions]
      ensures history.Contents() == old(history.Contents())[revision := batch]
      ensures compactedRevision == watermark && log == old(log) + [entry]
    {
      history.Set(revision, batch);
      histories.Set(key, revisions);
      compactedRevision := watermark;
      log := log + [entry];
    }

    /** The live value of a key, from its retained records. */
    method CurrentValue(key: Str) returns (value: Option<Stored>)
      requires StoreOk()
      ensures value == Lookup(Current(log), key)
    {
      CurrentReadExact(View(), key);
      var revisions := histories.Get(key);
      value := CurrentOf(if revisions.Some? then revisions.value else []);
    }

    method ApplyPutAtRevision(namespace: Str, o: PutOptions) returns (r: Result<PutResponse>, records: seq<Entry>)
      requires StoreOk() && compactedRevision < revision && Older(View(), NamespacedKey(namespace, o.key), revision)
      modifies this`log, this`compactedRevision, histories, history
      ensures StoreOk() && compactedRevision < revision
      ensures View() == ApplyPut(old(View()), namespace, o, revision).0
      ensures r == ApplyPut(old(View()), namespace, o, revision).1
      ensures log == old(log) + records && forall i :: 0 <= i < |records| ==> records[i].revision == revision
    {
      hide Agrees, Current, History, WellFormed, TotalOrder, Sorted, ToMap;
      records := [];
      if o.key == [] {
        return Err(EmptyKey), [];
      }
      var key := NamespacedKey(namespace, o.key);
      var existing := CurrentValue(key);
      if o.ignoreValue && existing.None? {
        return Err(KeyNotFound), [];
      }
      var value := if o.ignoreValue && existing.Some? then existing.value.value
                   else if o.value.Some? then o.value.value else [];
      var next := Stored(key, value,
                         if existing.Some? then existing.value.createRevision else revision,
                         revision,
                         (if existing.Some? then existing.value.version else 0) + 1);
      ghost var before := View();
      assert Entry(revision, Event(PutEvent, next, existing)) == PutEntry(existing, key, o, revision);
      var record := AppendRevision(key,
                                   Record(key, Some(next.value), next.createRevision, revision, next.version, false),
                                   Event(PutEvent, next, existing));
      assert View() == Append(before, PutEntry(existing, key, o, revision));
      r := Ok(PutResponse(revision, if o.prevKv && existing.Some? then Some(ToPublicKv(existing.value, namespace, false)) else None));
      records := [record];
    }

    method AppendDelete(value: Stored) returns (record: Entry)
      requires StoreOk() && compactedRevision < revision
      requires EventOk(Current(log), DeleteEntry(value, revision)) && Older(View(), value.key, revision)
      modifies this`log, this`compactedRevision, histories, history
      ensures StoreOk() && compactedRevision < revision
      ensures record == DeleteEntry(value, revision) && View() == Append(old(View()), record)
    {
      record := AppendRevision(value.key,
                               Record(value.key, None, value.createRevision, revision, value.version, true),
                               Event(DeleteEvent, value.(modRevision := revision), Some(value)));
    }

    method ApplyDeleteAtRevision(namespace: Str, o: DeleteOptions, doomed: seq<Stored>)
      returns (response: DeleteResponse, records: seq<Entry>)
      requires StoreOk() && compactedRevision < revision && DistinctKeys(doomed)
      requires forall i :: 0 <= i < |doomed| ==>
                             Lookup(Current(log), doomed[i].key) == Some(doomed[i]) && Older(View(), doomed[i].key, revision)
      modifies this`log, this`compactedRevision, histories, history
      ensures StoreOk() && compactedRevision < revision
      ensures View() == ApplyDelete(old(View()), namespace, o, revision, doomed).0
      ensures response == ApplyDelete(old(View()), namespace, o, revision, doomed).1
      ensures log == old(log) + records && forall i :: 0 <= i < |records| ==> records[i].revision == revision
    {
      hide Agrees, DbOk, Current, History, Append, EventOk, Older, StoreOk, DistinctKeys;
      StoreIsOk();
      ghost var before := View();
      records := [];
      for i := 0 to |doomed|
        invariant StoreOk() && compactedRevision < revision
        invariant View() == AppendDeletes(before, doomed[..i], revision)
        invariant records == DeleteEntries(doomed[..i], revision)
      {
        hide Agrees, DbOk, Current, History, Append, EventOk, Older, StoreOk, DistinctKeys;
        NextDoomed(before, View(), doomed, i, revision);
        var record := AppendDelete(doomed[i]);
        DeleteEntriesAppend(doomed, i, revision);
        records := records + [record];
      }
      hide Agrees, DbOk, Current, History, Append, EventOk, Older, StoreOk, DistinctKeys;
      assert doomed[..|doomed|] == doomed;
      AppendDeletesKeepsOk(before, doomed, revision);
      var prevKvs := [];
      if o.prevKv {
        prevKvs := PrevKvs(doomed, namespace);
      }
      response := DeleteResponse(revision, |doomed|, prevKvs);
    }

    /** The entries of a key range, in key order: every key of the range that has a history. */
    method EntriesInRange(start: Str, rangeEnd: Str) returns (entries: seq<(Str, seq<Record>)>)
      requires histories.Valid() && histories.compareKeys == KeyOrder()
      ensures Sorted(KeyOrder(), entries)
      ensures forall i :: 0 <= i < |entries| ==>
                            && IsKeyInRange(entries[i].0, start, rangeEnd)
                            && entries[i].0 in histories.Contents() && entries[i].1 == histories.Contents()[entries[i].0]
      ensures forall key :: key in histories.Contents() && IsKeyInRange(key, start, rangeEnd) ==>
                              exists i :: 0 <= i < |entries| && entries[i].0 == key
    {
      hide TotalOrder, IsKeyInRange, ToMap;
      var low := histories.LowerBound(start);
      var index := low;
      while index < |histories.items|
        invariant low <= index <= |histories.items|
        invariant forall i :: low <= i < index ==> IsKeyInRange(histories.items[i].0, start, rangeEnd)
      {
        hide TotalOrder, IsKeyInRange, ToMap;
        if !IsKeyInRange(histories.items[index].0, start, rangeEnd) {
          break;
        }
        index := index + 1;
      }
      hide TotalOrder, IsKeyInRange, ToMap;
      entries := histories.items[low..index];
      RangeIsSlice(histories.items, start, rangeEnd, low, index);
    }

    /** The live values in a range, in key order. */
    method CollectDeleted(namespace: Str, o: DeleteOptions) returns (r: Result<seq<Stored>>)
      requires StoreOk()
      ensures r == if RangeRequestOk(o.key, o.rangeEnd) then Ok(DoomedBy(View(), namespace, o)) else Err(EmptyKey)
    {
      if !RangeRequestOk(o.key, o.rangeEnd) {
        return Err(EmptyKey);
      }
      var start, rangeEnd := NamespacedKey(namespace, o.key), NamespacedRangeEnd(namespace, o.rangeEnd);
      var entries := EntriesInRange(start, rangeEnd);
      var doomed := [];
      for i := 0 to |entries|
        invariant doomed == LiveValues(entries[..i])
      {
        assert entries[..i + 1][..i] == entries[..i];
        var current := CurrentOf(entries[i].1);
        if current.Some? {
          doomed := doomed + [current.value];
        }
      }
      assert entries[..|entries|] == entries;
      LiveValuesAreDoomed(View(), histories.Contents(), entries, start, rangeEnd);
      return Ok(doomed);
    }

    // ----- watchers -----

    /** Tells every watcher of the events of the current revision. */
    method Publish(records: seq<Entry>)
      requires 0 < revision && records == At(log, revision)
      requires WatchersSound(log, lost, revision - 1) && revision !in lost
      requires forall i :: 0 <= i < |records| ==> records[i].revision == revision
      modifies set w | w in watchers
      ensures WatchersSound(log, lost, revision)
    {
      hide Deliveries, Respond, At;
      for i := 0 to |watchers|
        invariant forall j :: 0 <= j < i ==> watchers[j].Sound(log, lost, revision)
        invariant forall j :: i <= j < |watchers| ==> watchers[j].Sound(log, lost, revision - 1)
      {
        hide Deliveries, Respond, At;
        var w := watchers[i];
        DeliverOne(w.spec, log, w.from, revision, lost, w.connectedAt);
        w.HandleMany(records, revision);
      }
    }

    /** A revision without events, or one that is never published, owes no watcher anything. */
    lemma PublishNothing()
      requires 0 < revision && WatchersSound(log, lost, revision - 1)
      requires At(log, revision) == [] || revision in lost
      ensures WatchersSound(log, lost, revision)
    {
      forall i | 0 <= i < |watchers|
        ensures watchers[i].Sound(log, lost, revision)
      {
        DeliverOne(watchers[i].spec, log, watchers[i].from, revision, lost, watchers[i].connectedAt);
      }
    }

    /** Registers a watcher; it hears nothing until it connects. */
    method Watch(spec: WatchSpec, startRevision: Option<int>) returns (r: Result<WatcherImpl>)
      requires Valid()
      modifies this`nextWatchId, this`watchers
      ensures Valid() && View() == old(View())
      ensures r.Err? <==> !RangeRequestOk(spec.key, spec.rangeEnd)
      ensures r.Err? ==> r.error == EmptyKey && watchers == old(watchers)
      ensures r.Ok? ==> fresh(r.value) && r.value.spec == spec && r.value.startRevision == startRevision &&
                        watchers == old(watchers) + [r.value] && !r.value.connected && !r.value.ended
    {
      hide Agrees, Deliveries;
      if !RangeRequestOk(spec.key, spec.rangeEnd) {
        return Err(EmptyKey);
      }
      var watcher := new WatcherImpl(nextWatchId, spec, startRevision);
      nextWatchId := nextWatchId + 1;
      watchers := watchers + [watcher];
      return Ok(watcher);
    }

    /** The deferred step of a watch: connect, then replay the retained events from the start
        revision on. A start revision at or below the watermark connects without a replay, and the
        answer says that the watcher must then fail. */
    method ConnectWatcher(w: WatcherImpl) returns (compacted: bool)
      requires Valid() && w in watchers && !w.connected && !w.ended
      modifies w
      ensures Valid() && View() == old(View()) && watchers == old(watchers)
      ensures w.connected && !w.ended && w.connectedAt == revision && w.compactedAt == compactedRevision
      ensures compacted <==> w.startRevision.Some? && 0 < w.startRevision.value <= compactedRevision
    {
      hide Agrees, EffectiveStart, Deliveries, DbOk, HistoryOk;
      AgreesMeansOk(histories.Contents(), history.Contents(), View());
      ghost var from := EffectiveStart(w.startRevision, compactedRevision, revision);
      w.connectedAt, w.compactedAt, w.from := revision, compactedRevision, from;
      w.Connect();
      compacted := w.startRevision.Some? && 0 < w.startRevision.value <= compactedRevision;
      if w.startRevision.Some? && compactedRevision < w.startRevision.value {
        Replay(w);
      } else {
        StartsNow(w.startRevision, compactedRevision, revision);
        DeliverNone(w.spec, log, from, revision, lost, revision);
      }
      assert w.Sound(log, lost, revision);
    }

    method Replay(w: WatcherImpl)
      requires Valid0(w) && w.connected && !w.ended && w.delivered == []
      requires w.startRevision.Some? && compactedRevision < w.startRevision.value
      requires w.from == EffectiveStart(w.startRevision, compactedRevision, revision)
      modifies w`delivered
      ensures w.delivered == Deliveries(w.spec, log, w.from, revision, lost, revision)
    {
      hide TotalOrder, Deliveries, HistoryOk, DbOk, Respond, ToMap, Sorted, EffectiveStart, IsLowerBound, FoundAt;
      var low := history.LowerBound(w.startRevision.value);
      var items := history.items;
      ghost var db := View();
      for index := low to |items|
        invariant w.delivered == Replayed(w.spec, items[low..index])
      {
        hide TotalOrder, Deliveries, HistoryOk, DbOk, Replayed, Respond, ToMap, Sorted, EffectiveStart, IsLowerBound, FoundAt;
        var (r, records) := items[index];
        ItemIsBatch(items, db, index);
        w.HandleMany(records, r);
        ReplayedStep(w.spec, items, low, index);
      }
      hide TotalOrder, Deliveries, HistoryOk, DbOk, Replayed, Respond, ToMap, Sorted, EffectiveStart, IsLowerBound, FoundAt;
      assert items[low..|items|] == items[low..];
      ReplayIsOwed(w.spec, db, items, w.startRevision.value, low);
    }

    ghost predicate Valid0(w: WatcherImpl)
      reads this, history
    {
      history.Valid() && history.compareKeys == RevisionOrder() && DbOk(View()) && HistoryOk(history.Contents(), View())
    }

    /** A watcher that failed or was cancelled is told of nothing more. */
    method DetachWatcher(w: WatcherImpl)
      requires Valid()
      modifies this`watchers
      ensures Valid() && View() == old(View())
      ensures forall x :: x in watchers <==> x in old(watchers) && x != w
    {
      hide Agrees, Deliveries;
      var i := 0;
      while i < |watchers| && watchers[i] != w
        invariant i <= |watchers| && w !in watchers[..i]
      {
        i := i + 1;
      }
      hide Agrees, Deliveries;
      if i < |watchers| {
        watchers := watchers[..i] + watchers[i + 1..];
      }
    }

    /** What the timer of a late watch does. */
    method FailWatcher(w: WatcherImpl)
      requires Valid() && w in watchers
      modifies this`watchers, w`connected
      ensures Valid() && View() == old(View())
      ensures w.delivered == old(w.delivered) && !w.connected && w !in watchers
    {
      hide Agrees, Deliveries;
      DetachWatcher(w);
      w.connected := false;
    }

    method CancelWatcher(w: WatcherImpl)
      requires Valid() && w in watchers
      modifies this`watchers, w`connected, w`ended
      ensures Valid() && View() == old(View())
      ensures w.delivered == old(w.delivered) && w.ended && w !in watchers
    {
      hide Agrees, Deliveries;
      DetachWatcher(w);
      w.End();
    }

    /** Events of a new revision leave every watcher owed exactly those events. */
    lemma StillSound(log0: Log, lost0: set<nat>, records: seq<Entry>)
      requires 0 < revision && log == log0 + records && (lost == lost0 || lost == lost0 + {revision})
      requires forall i :: 0 <= i < |log0| ==> log0[i].revision < revision
      requires forall i :: 0 <= i < |records| ==> records[i].revision == revision
      requires WatchersSound(log0, lost0, revision - 1)
      ensures WatchersSound(log, lost, revision - 1) && records == At(log, revision)
    {
      hide Deliveries, Silent, EffectiveStart;
      AtFresh(log0, records, revision);
      forall i | 0 <= i < |watchers|
        ensures watchers[i].Sound(log, lost, revision - 1)
      {
        var w := watchers[i];
        LostLater(lost0, lost, w.connectedAt, revision);
        DeliveriesStable(w.spec, log0, log, w.from, revision - 1, lost0, lost, w.connectedAt);
      }
    }

    /** What a connected watcher has heard by now, in any state between requests: its deliveries
        are the ones it asked for exactly when nothing it wanted fell between its connection and a
        later start, and nothing it wanted was lost by a refused transaction. */
    lemma WatcherHeard(w: WatcherImpl, start: nat)
      requires Valid() && w in watchers && w.connected && w.startRevision == Some(start)
      requires w.compactedAt < start
      ensures w.delivered == Owed(w.spec, log, start, revision)
              <==>
              && (forall r: nat :: w.connectedAt < r < start && r <= revision && Watches.Shows(w.spec, At(log, r)) != [] ==> r in lost)
              && (forall r: nat :: w.connectedAt < r && start <= r <= revision && r in lost ==> Watches.Shows(w.spec, At(log, r)) == [])
    {
      hide Agrees, Deliveries, EffectiveStart, Owed, At;
      ExactlyOnce(w.spec, log, start, revision, lost, w.compactedAt, w.connectedAt);
    }

    /** A watcher whose start was compacted away before it connected has heard nothing from before its
        connection, and from then on everything it wanted unless a refused transaction lost it. */
    lemma LateWatcherHeard(w: WatcherImpl, start: nat)
      requires Valid() && w in watchers && w.connected && w.startRevision == Some(start)
      requires 0 < start <= w.compactedAt
      ensures w.delivered == Owed(w.spec, log, w.connectedAt + 1, revision)
              <==>
              forall r: nat :: w.connectedAt < r <= revision && r in lost ==> Watches.Shows(w.spec, At(log, r)) == []
    {
      hide Agrees, Deliveries, Owed, At;
      StartsNow(w.startRevision, w.compactedAt, w.connectedAt);
      ExactlyOnce(w.spec, log, w.connectedAt + 1, revision, lost, w.compactedAt, w.connectedAt);
    }

    // ----- requests -----

    method Put(namespace: Str, o: PutOptions) returns (r: Result<PutResponse>)
      requires Valid()
      modifies this`revision, this`log, this`compactedRevision, histories, history, set w | w in watchers
      ensures Valid() && watchers == old(watchers)
      ensures View() == EtcdSpec.Put(old(View()), namespace, o).0
      ensures r == EtcdSpec.Put(old(View()), namespace, o).1
    {
      hide Agrees, Deliveries, History, Current, At, ApplyPut, WatcherImpl.Sound, Older, StoreOk, WatchersSound;
      ghost var log0 := log;
      BumpRevision();
      assert Older(View(), NamespacedKey(namespace, o.key), revision);
      var records;
      r, records := ApplyPutAtRevision(namespace, o);
      StillSound(log0, lost, records);
      if r.Err? {
        RefusedPut(old(View()), namespace, o);
        PublishNothing();
        return;
      }
      Publish(records);
    }

    method Delete(namespace: Str, o: DeleteOptions) returns (r: Result<DeleteResponse>)
      requires Valid()
      modifies this`revision, this`log, this`compactedRevision, histories, history, set w | w in watchers
      ensures Valid() && watchers == old(watchers)
      ensures View() == EtcdSpec.Delete(old(View()), namespace, o).0
      ensures r == EtcdSpec.Delete(old(View()), namespace, o).1
    {
      hide Agrees, DbOk, History, Current, At, ApplyDelete, WatcherImpl.Sound, Older, StoreOk, WatchersSound, Doomed;
      ghost var log0 := log;
      var collected := CollectDeleted(namespace, o);
      if collected.Err? {
        return Err(collected.error);
      }
      var doomed := collected.value;
      if |doomed| == 0 {
        return Ok(DeleteResponse(revision, 0, []));
      }
      BumpRevision();
      ReadyToDelete(log0, namespace, o);
      var response, records := ApplyDeleteAtRevision(namespace, o, doomed);
      StillSound(log0, lost, records);
      Publish(records);
      return Ok(response);
    }

    lemma ReadyToDelete(log0: Log, namespace: Str, o: DeleteOptions)
      requires StoreOk() && log0 == log && AllOlder(View(), revision)
      ensures var doomed := DoomedBy(View(), namespace, o);
              && DistinctKeys(doomed)
              && (forall i :: 0 <= i < |doomed| ==>
                                Lookup(Current(log), doomed[i].key) == Some(doomed[i]) && Older(View(), doomed[i].key, revision))
    {
      DoomedFacts(View(), NamespacedKey(namespace, o.key), NamespacedRangeEnd(namespace, o.rangeEnd));
    }

    /** A read: the visible values of the range that pass the filters, sorted and truncated. */
    method Range(namespace: Str, o: RangeOptions) returns (r: Result<RangeResponse>)
      requires StoreOk()
      ensures r == EtcdSpec.Range(View(), namespace, o)
    {
      if !RangeRequestOk(o.key, o.rangeEnd) {
        return Err(EmptyKey);
      }
      var resolved := ResolveRevisionNow(o.revision);
      if resolved.Err? {
        return Err(resolved.error);
      }
      if o.revision.Some? && 0 < o.revision.value <= compactedRevision {
        return Err(Compacted);
      }
      var ordered := OrderedMatches(namespace, o, resolved.value);
      var kvs := Listed(ordered.items, namespace, o);
      ListedIsAnswer(ordered.items, resolved.value, namespace, o);
      return Ok(RangeResponse(resolved.value, kvs, |ordered.items|, o.limit > 0 && |ordered.items| > o.limit));
    }

    method ResolveRevisionNow(requested: Option<int>) returns (r: Result<nat>)
      ensures r == ResolveRevision(View(), requested)
    {
      if requested.None? || requested.value <= 0 {
        return Ok(revision);
      }
      if requested.value > revision {
        return Err(FutureRevision);
      }
      return Ok(requested.value);
    }

    method OrderedMatches(namespace: Str, o: RangeOptions, at: nat) returns (ordered: SortedMap<SortKey, Stored>)
      requires StoreOk()
      ensures fresh(ordered) && ordered.Valid() && ordered.compareKeys == Comparator(o.sortOrder)
      ensures ordered.Contents() == Matches(View(), at, namespace, o)
    {
      hide DbOk, Comparator, History, Visible, ToMap, TotalOrder, Gathered, Matches, Increasing;
      var start, rangeEnd := NamespacedKey(namespace, o.key), NamespacedRangeEnd(namespace, o.rangeEnd);
      var entries := EntriesInRange(start, rangeEnd);
      EntriesIncreasing(histories.Contents(), View(), entries);
      ordered := Gather(entries, at, o);
      GatheredAreMatches(View(), histories.Contents(), entries, at, namespace, o);
    }

    /** Whether a transaction's clause holds of the live value of its key. */
    method EvaluateCompare(c: Clause) returns (holds: bool)
      requires StoreOk()
      ensures holds <==> Holds(Lookup(Current(log), c.key), c)
    {
      var current := CurrentValue(c.key);
      var left := match c.target
        case ValueTarget => if current.Some? then current.value.value else []
        case CreateTarget => [if current.Some? then current.value.createRevision else 0]
        case ModTarget => [if current.Some? then current.value.modRevision else 0]
        case LeaseTarget => [0]
        case VersionTarget => [if current.Some? then current.value.version else 0];
      var right: seq<int> := if c.target.ValueTarget? then c.value else [c.number];
      match c.result {
        case Greater => return Less(right, left);
        case LessThan => return Less(left, right);
        case NotEqual => return left != right;
        case Equal => return left == right;
      }
    }

    method EvaluateAll(compare: seq<Clause>) returns (succeeded: bool)
      requires StoreOk()
      ensures succeeded <==> forall i :: 0 <= i < |compare| ==> Holds(Lookup(Current(log), compare[i].key), compare[i])
    {
      hide StoreOk, Holds;
      for i := 0 to |compare|
        invariant forall j :: 0 <= j < i ==> Holds(Lookup(Current(log), compare[j].key), compare[j])
      {
        hide StoreOk, Holds;
        var holds := EvaluateCompare(compare[i]);
        if !holds {
          return false;
        }
      }
      return true;
    }

    /** One operation of a transaction, at the transaction's revision. */
    method RunTxnOp(op: Op) returns (r: Result<OpResponse>, records: seq<Entry>)
      requires StoreOk() && (Writes(op) ==> compactedRevision < revision)
      requires forall key: Str :: InWrite(op, key) ==> Older(View(), key, revision)
      modifies this`log, this`compactedRevision, histories, history
      ensures StoreOk() && (old(compactedRevision) < revision ==> compactedRevision < revision)
      ensures View() == RunOp(old(View()), op, revision).0
      ensures r == RunOp(old(View()), op, revision).1
      ensures log == old(log) + records && forall i :: 0 <= i < |records| ==> records[i].revision == revision
      ensures !Writes(op) ==> records == []
    {
      hide StoreOk, DbOk, History, Current, ApplyPut, ApplyDelete, Older, Doomed, EtcdSpec.Range;
      records := [];
      assert log + [] == log;
      match op {
        case RangeOp(o) =>
          var answer := Range([], o);
          r := if answer.Ok? then Ok(RangeDone(answer.value)) else Err(answer.error);
        case PutOp(o) =>
          assert NamespacedKey([], o.key) == o.key && InWrite(op, o.key);
          var answer;
          answer, records := ApplyPutAtRevision([], o);
          r := if answer.Ok? then Ok(PutDone(answer.value)) else Err(answer.error);
        case DeleteOp(o) =>
          var collected := CollectDeleted([], o);
          if collected.Err? {
            return Err(collected.error), [];
          }
          var doomed := collected.value;
          if |doomed| == 0 {
            return Ok(DeleteDone(DeleteResponse(revision, 0, []))), [];
          }
          ReadyToDeleteIn(op);
          var answer;
          answer, records := ApplyDeleteAtRevision([], o, doomed);
          r := Ok(DeleteDone(answer));
        case TxnOp =>
          r := Err(Unsupported);
      }
    }

    lemma ReadyToDeleteIn(op: Op)
      requires StoreOk() && op.DeleteOp?
      requires forall key: Str :: InWrite(op, key) ==> Older(View(), key, revision)
      ensures var doomed := DoomedBy(View(), [], op.delete);
              && DistinctKeys(doomed)
              && (forall i :: 0 <= i < |doomed| ==>
                                Lookup(Current(log), doomed[i].key) == Some(doomed[i]) && Older(View(), doomed[i].key, revision))
    {
      hide DbOk, Current, History, Older, Agrees, IsKeyInRange, Doomed;
      assert NamespacedKey([], op.delete.key) == op.delete.key;
      assert NamespacedRangeEnd([], op.delete.rangeEnd) == op.delete.rangeEnd;
      AgreesMeansOk(histories.Contents(), history.Contents(), View());
      DoomedFacts(View(), op.delete.key, op.delete.rangeEnd);
      var doomed := DoomedBy(View(), [], op.delete);
      forall i | 0 <= i < |doomed|
        ensures Older(View(), doomed[i].key, revision)
      {
        assert InWrite(op, doomed[i].key);
      }
    }

    method RunTxnOps(ops: seq<Op>) returns (r: Result<seq<OpResponse>>, records: seq<Entry>)
      requires StoreOk() && WriteRangesValid(ops)
      requires AnyWrites(ops) ==> compactedRevision < revision && AllOlder(View(), revision)
      modifies this`log, this`compactedRevision, histories, history
      ensures StoreOk()
      ensures View() == RunOps(old(View()), ops, revision).0
      ensures r == RunOps(old(View()), ops, revision).1
      ensures log == old(log) + records && forall i :: 0 <= i < |records| ==> records[i].revision == revision
      ensures !AnyWrites(ops) ==> records == []
    {
      hide StoreOk, RunOp, WriteRangesValid, AllOlder;
      ghost var start := View();
      StoreIsOk();
      var responses := [];
      records := [];
      for i := 0 to |ops|
        invariant StoreOk() && (AnyWrites(ops) ==> compactedRevision < revision)
        invariant RunOps(start, ops[..i], revision).0 == View()
        invariant RunOps(start, ops[..i], revision).1 == Ok(responses)
        invariant log == start.log + records && forall j :: 0 <= j < |records| ==> records[j].revision == revision
        invariant !AnyWrites(ops) ==> records == []
      {
        hide StoreOk, RunOp, RunOps, WriteRangesValid, AllOlder, Older;
        NextOp(start, View(), ops, i, revision);
        RunOpsStep(start, ops, i, revision);
        ghost var before := View();
        var response, more := RunTxnOp(ops[i]);
        AppendLater(start.log, records, more);
        records := records + more;
        if response.Err? {
          RefusedOps(start, before, View(), ops, i, revision);
          return Err(response.error), records;
        }
        responses := responses + [response.value];
      }
      hide StoreOk, RunOp, RunOps, WriteRangesValid, AllOlder;
      assert ops[..|ops|] == ops;
      return Ok(responses), records;
    }

    lemma StoreIsOk()
      requires StoreOk()
      ensures DbOk(View())
    {
    }

    method Txn(t: TxnRequest) returns (r: Result<TxnResponse>)
      requires Valid()
      modifies this`revision, this`log, this`compactedRevision, this`lost, histories, history, set w | w in watchers
      ensures Valid() && watchers == old(watchers)
      ensures View() == EtcdSpec.Txn(old(View()), t).0
      ensures r == EtcdSpec.Txn(old(View()), t).1
    {
      hide StoreOk, WatchersSound, RunOps, WriteRangesValid, AllOlder, Holds, Current, EtcdSpec.Txn;
      ghost var before := View();
      TxnCases(before, t);
      var succeeded := EvaluateAll(t.compare);
      var ops := if succeeded then t.success else t.failure;
      var valid := CheckWriteRanges(ops);
      if !valid {
        return Err(DuplicateKey);
      }
      var writes := HasWrites(ops);
      if writes {
        BumpRevision();
      }
      var responses, records := RunTxnOps(ops);
      if !writes {
        assert before.log + [] == before.log;
      }
      if responses.Err? {
        if writes {
          LoseRevision(before.log, records);
        }
        return Err(responses.error);
      }
      if writes {
        StillSound(before.log, lost, records);
      }
      if |records| > 0 {
        Publish(records);
      } else if writes {
        PublishNothing();
      }
      return Ok(TxnResponse(revision, succeeded, responses.value));
    }

    /** A transaction refused midway keeps its writes but publishes none of them. */
    ghost method LoseRevision(log0: Log, records: seq<Entry>)
      requires 0 < revision && StoreOk() && log == log0 + records && WatchersSound(log0, lost, revision - 1)
      requires forall i :: 0 <= i < |log0| ==> log0[i].revision < revision
      requires forall i :: 0 <= i < |records| ==> records[i].revision == revision
      modifies this`lost
      ensures Valid() && lost == old(lost) + {revision}
    {
      hide Agrees, DbOk, At, TotalOrder, Sorted, ToMap, WatchersSound;
      ghost var lost0 := lost;
      LostAgrees(histories.Contents(), history.Contents(), View(), revision);
      lost := lost + {revision};
      StillSound(log0, lost0, records);
      PublishNothing();
    }

    /** Compaction raises the watermark. It walks the old batches while removing them, so it
        removes only some of them; none above the watermark. */
    method Compact(requested: Option<int>) returns (r: Result<()>)
      requires Valid()
      modifies this`compactedRevision, history
      ensures Valid() && watchers == old(watchers)
      ensures View() == EtcdSpec.Compact(old(View()), requested).0
      ensures r == EtcdSpec.Compact(old(View()), requested).1
    {
      hide DbOk, HistoriesOk, HistoryOk, WatchersSound, History, TotalOrder, Sorted, ToMap;
      var resolved := ResolveRevisionNow(requested);
      if resolved.Err? {
        return Err(resolved.error);
      }
      if resolved.value <= 0 {
        return Ok(());
      }
      CompactAgrees(histories.Contents(), history.Contents(), View(), resolved.value);
      compactedRevision := Max(compactedRevision, resolved.value);
      ghost var before := View();
      var index := 0;
      while index < |history.items|
        invariant StoreOk() && WatchersSound(log, lost, revision) && View() == before
        decreases |history.items| - index
      {
        hide DbOk, HistoriesOk, HistoryOk, WatchersSound, History, TotalOrder, Sorted, ToMap;
        var historyRevision := history.items[index].0;
        if historyRevision > resolved.value {
          break;
        }
        DropBatch(history.Contents(), View(), historyRevision);
        ShorterBy(history.items, index);
        history.Delete(historyRevision);
        index := index + 1;
      }
      return Ok(());
    }
  }

  // ----- reads over the sorted entries -----

  function Publics(items: seq<(SortKey, Stored)>, namespace: Str, keysOnly: bool): seq<Stored> {
    seq(|items|, i requires 0 <= i < |items| => ToPublicKv(items[i].1, namespace, keysOnly))
  }

  method Listed(items: seq<(SortKey, Stored)>, namespace: Str, o: RangeOptions) returns (kvs: seq<Stored>)
    ensures kvs == if o.countOnly then [] else Truncate(Publics(items, namespace, o.keysOnly), o.limit)
  {
    kvs := [];
    for i := 0 to |items|
      invariant kvs == if o.countOnly then [] else Publics(items[..i], namespace, o.keysOnly)
      invariant 0 < o.limit && !o.countOnly ==> i <= o.limit
    {
      if o.limit > 0 && |kvs| >= o.limit {
        return;
      }
      if !o.countOnly {
        kvs := kvs + [ToPublicKv(items[i].1, namespace, o.keysOnly)];
      }
    }
    assert items[..|items|] == items;
  }

  lemma ListedIsAnswer(items: seq<(SortKey, Stored)>, revision: nat, namespace: Str, o: RangeOptions)
    requires Sorted(Comparator(o.sortOrder), items)
    ensures RangeOver(ToMap(items), revision, namespace, o) ==
            RangeResponse(revision, if o.countOnly then [] else Truncate(Publics(items, namespace, o.keysOnly), o.limit),
                          |items|, o.limit > 0 && |items| > o.limit)
  {
    hide ToMap, TotalOrder, Sorted, Comparator, IsListing, SortSet;
    ComparatorIsTotal(o.sortOrder);
    ItemsDetermined(Comparator(o.sortOrder), items);
    var keys := SortSet(Comparator(o.sortOrder), ToMap(items).Keys);
    assert |keys| == |items|;
    assert forall i :: 0 <= i < |items| ==> Keys(items)[i] == items[i].0;
    var all := Publics(items, namespace, o.keysOnly);
    var named := seq(|keys|, i requires 0 <= i < |keys| =>
                     assert keys[i] in keys;
                     ToPublicKv(ToMap(items)[keys[i]], namespace, o.keysOnly));
    assert named == all;
  }

  predicate Qualifies(entry: (Str, seq<Record>), at: nat, o: RangeOptions) {
    var v := Resolve(FindAt(entry.1, at));
    v.Some? && PassesRangeFilters(v.value, o)
  }

  /** One more entry of a range. */
  function GatherOne(before: map<SortKey, Stored>, entry: (Str, seq<Record>), at: nat, o: RangeOptions): map<SortKey, Stored> {
    if Qualifies(entry, at, o) then
      var v := Resolve(FindAt(entry.1, at)).value;
      before[MakeSortKey(v, o.sortTarget) := v]
    else before
  }

  function Gathered(entries: seq<(Str, seq<Record>)>, at: nat, o: RangeOptions): map<SortKey, Stored> {
    if entries == [] then map[]
    else GatherOne(Gathered(entries[..|entries| - 1], at, o), entries[|entries| - 1], at, o)
  }

  lemma GatheredStep(entries: seq<(Str, seq<Record>)>, i: nat, at: nat, o: RangeOptions)
    requires i < |entries|
    ensures Gathered(entries[..i + 1], at, o) == GatherOne(Gathered(entries[..i], at, o), entries[i], at, o)
  {
    hide Qualifies, Resolve, FindAt, MakeSortKey;
    assert entries[..i + 1][..i] == entries[..i];
  }

  /** The visible values of a range that pass the filters, sorted. */
  method Gather(entries: seq<(Str, seq<Record>)>, at: nat, o: RangeOptions) returns (ordered: SortedMap<SortKey, Stored>)
    requires forall i :: 0 <= i < |entries| ==> Increasing(entries[i].1)
    ensures fresh(ordered) && ordered.Valid() && ordered.compareKeys == Comparator(o.sortOrder)
    ensures ordered.Contents() == Gathered(entries, at, o)
  {
    hide Comparator, ToMap, TotalOrder, Sorted, Increasing, FindAt, Resolve, MakeSortKey, PassesRangeFilters, Gathered;
    ComparatorIsTotal(o.sortOrder);
    ordered := new SortedMap<SortKey, Stored>(Comparator(o.sortOrder));
    NothingGathered(at, o);
    for i := 0 to |entries|
      invariant fresh(ordered) && ordered.Valid() && ordered.compareKeys == Comparator(o.sortOrder)
      invariant ordered.Contents() == Gathered(entries[..i], at, o)
    {
      hide Comparator, ToMap, TotalOrder, Sorted, Increasing, FindAt, Resolve, MakeSortKey, PassesRangeFilters, Gathered;
      GatheredStep(entries, i, at, o);
      var found := FindRevisionAtOrBefore(entries[i].1, at);
      var value := Resolve(found);
      if value.None? {
        continue;
      }
      if !PassesRangeFilters(value.value, o) {
        continue;
      }
      ordered.Set(MakeSortKey(value.value, o.sortTarget), value.value);
    }
    assert entries[..|entries|] == entries;
  }

  lemma NothingGathered(at: nat, o: RangeOptions)
    ensures Gathered([], at, o) == map[]
  {
  }

  lemma EntriesIncreasing(histories: map<Str, seq<Record>>, db: Db, entries: seq<(Str, seq<Record>)>)
    requires DbOk(db) && HistoriesOk(histories, db)
    requires forall i :: 0 <= i < |entries| ==> entries[i].0 in histories && entries[i].1 == histories[entries[i].0]
    ensures forall i :: 0 <= i < |entries| ==> Increasing(entries[i].1)
  {
    forall i | 0 <= i < |entries|
      ensures Increasing(entries[i].1)
    {
      HistoryIncreasing(db.log, entries[i].0);
    }
  }

  lemma {:induction false} GatheredMembers(db: Db, entries: seq<(Str, seq<Record>)>, at: nat, o: RangeOptions, sk: SortKey)
    requires forall i :: 0 <= i < |entries| ==> Resolve(FindAt(entries[i].1, at)) == Visible(db, at, entries[i].0)
    requires forall i :: 0 <= i < |entries| ==> Visible(db, at, entries[i].0).Some? ==> Visible(db, at, entries[i].0).value.key == entries[i].0
    ensures sk in Gathered(entries, at, o) <==> HasEntry(entries, sk.key) && IsMatch(db, at, o, sk.key, sk)
    ensures sk in Gathered(entries, at, o) ==> Visible(db, at, sk.key).Some? && Gathered(entries, at, o)[sk] == Visible(db, at, sk.key).value
  {
    hide Visible, PassesRangeFilters, FindAt;
    if entries != [] {
      var n := |entries| - 1;
      GatheredMembers(db, entries[..n], at, o, sk);
      HasEntryStep(entries, sk.key);
    }
  }

  predicate HasEntry(entries: seq<(Str, seq<Record>)>, key: Str) {
    exists i :: 0 <= i < |entries| && entries[i].0 == key
  }

  lemma HasEntryStep(entries: seq<(Str, seq<Record>)>, key: Str)
    requires entries != []
    ensures HasEntry(entries, key) <==> HasEntry(entries[..|entries| - 1], key) || entries[|entries| - 1].0 == key
  {
    var n := |entries| - 1;
    if HasEntry(entries[..n], key) {
      var i :| 0 <= i < n && entries[..n][i].0 == key;
      assert entries[i].0 == key;
    }
    if HasEntry(entries, key) && entries[n].0 != key {
      var i :| 0 <= i < |entries| && entries[i].0 == key;
      assert entries[..n][i].0 == key;
    }
  }

  /** Walking the range's histories finds exactly the matches of the read. */
  lemma GatheredAreMatches(db: Db, histories: map<Str, seq<Record>>, entries: seq<(Str, seq<Record>)>, at: nat,
                           namespace: Str, o: RangeOptions)
    requires DbOk(db) && HistoriesOk(histories, db)
    requires var start, rangeEnd := NamespacedKey(namespace, o.key), NamespacedRangeEnd(namespace, o.rangeEnd);
             && (forall i :: 0 <= i < |entries| ==>
                               && IsKeyInRange(entries[i].0, start, rangeEnd)
                               && entries[i].0 in histories && entries[i].1 == histories[entries[i].0])
             && (forall key :: key in histories && IsKeyInRange(key, start, rangeEnd) ==> HasEntry(entries, key))
    ensures Gathered(entries, at, o) == Matches(db, at, namespace, o)
  {
    hide DbOk, IsKeyInRange, Visible, PassesRangeFilters, FindAt;
    EntriesVisible(db, histories, entries, at);
    var gathered, matches := Gathered(entries, at, o), Matches(db, at, namespace, o);
    forall sk: SortKey
      ensures sk in gathered <==> sk in matches
      ensures sk in gathered ==> gathered[sk] == matches[sk]
    {
      GatheredMembers(db, entries, at, o, sk);
      KeysHaveHistory(db.log, sk.key);
      MatchMembers(db, at, namespace, o, sk);
    }
  }

  lemma EntriesVisible(db: Db, histories: map<Str, seq<Record>>, entries: seq<(Str, seq<Record>)>, at: nat)
    requires DbOk(db) && HistoriesOk(histories, db)
    requires forall i :: 0 <= i < |entries| ==> entries[i].0 in histories && entries[i].1 == histories[entries[i].0]
    ensures forall i :: 0 <= i < |entries| ==> Resolve(FindAt(entries[i].1, at)) == Visible(db, at, entries[i].0)
    ensures forall i :: 0 <= i < |entries| ==> Visible(db, at, entries[i].0).Some? ==> Visible(db, at, entries[i].0).value.key == entries[i].0
  {
    forall i | 0 <= i < |entries|
      ensures Visible(db, at, entries[i].0).Some? ==> Visible(db, at, entries[i].0).value.key == entries[i].0
    {
      VisibleKey(db, at, entries[i].0);
    }
  }

  lemma AppendLater<T>(a: seq<T>, b: seq<T>, c: seq<T>)
    ensures (a + b) + c == a + (b + c)
  {
  }

  lemma ShorterBy<T>(items: seq<T>, index: nat)
    requires index < |items|
    ensures |items[..index] + items[index + 1..]| < |items|
  {
  }

  lemma DropBatch(history: map<nat, seq<Entry>>, db: Db, revision: nat)
    requires HistoryOk(history, db) && revision <= db.compacted
    ensures HistoryOk(history - {revision}, db)
  {
  }

  lemma CompactAgrees(histories: map<Str, seq<Record>>, history: map<nat, seq<Entry>>, db: Db, revision: nat)
    requires Agrees(histories, history, db) && 0 < revision <= db.revision
    ensures Agrees(histories, history, db.(compacted := Max(db.compacted, revision)))
  {
    CompactKeepsOk(db, Some(revision));
  }

  lemma LostAgrees(histories: map<Str, seq<Record>>, history: map<nat, seq<Entry>>, db: Db, revision: nat)
    requires Agrees(histories, history, db)
    ensures Agrees(histories, history, db.(lost := db.lost + {revision}))
  {
    LostKeepsOk(db, revision);
  }

  method HasWrites(ops: seq<Op>) returns (writes: bool)
    ensures writes <==> AnyWrites(ops)
  {
    for i := 0 to |ops|
      invariant !AnyWrites(ops[..i])
    {
      if Writes(ops[i]) {
        return true;
      }
    }
    assert ops[..|ops|] == ops;
    return false;
  }

  function WriteRange(op: Op): (Str, Str)
    requires Writes(op)
  {
    (WriteStart(op), WriteEnd(op))
  }

  function WriteRanges(ops: seq<Op>): seq<(Str, Str)> {
    if ops == [] then []
    else
      var before, last := WriteRanges(ops[..|ops| - 1]), ops[|ops| - 1];
      if Writes(last) then before + [WriteRange(last)] else before
  }

  predicate Apart(a: (Str, Str), b: (Str, Str)) {
    !RangesOverlap(a.0, a.1, b.0, b.1)
  }

  predicate Clear(ranges: seq<(Str, Str)>, range: (Str, Str)) {
    forall k :: 0 <= k < |ranges| ==> Apart(ranges[k], range)
  }

  lemma {:induction false} ClearOfWrites(ops: seq<Op>, range: (Str, Str))
    ensures Clear(WriteRanges(ops), range) <==> forall j :: 0 <= j < |ops| && Writes(ops[j]) ==> Apart(WriteRange(ops[j]), range)
  {
    hide Apart, WriteRange;
    if ops != [] {
      var init, last := ops[..|ops| - 1], ops[|ops| - 1];
      ClearOfWrites(init, range);
      assert forall j :: 0 <= j < |init| ==> init[j] == ops[j];
      if Writes(last) {
        ClearAppend(WriteRanges(init), WriteRange(last), range);
      }
    }
  }

  lemma ClearAppend(ranges: seq<(Str, Str)>, more: (Str, Str), range: (Str, Str))
    ensures Clear(ranges + [more], range) <==> Clear(ranges, range) && Apart(more, range)
  {
    var longer := ranges + [more];
    assert longer[|ranges|] == more;
    assert forall k :: 0 <= k < |ranges| ==> longer[k] == ranges[k];
  }

  lemma ValidStep(ops: seq<Op>, i: nat)
    requires i < |ops|
    ensures WriteRangesValid(ops[..i + 1]) <==>
            WriteRangesValid(ops[..i]) && (Writes(ops[i]) ==> Clear(WriteRanges(ops[..i]), WriteRange(ops[i])))
    ensures WriteRanges(ops[..i + 1]) == if Writes(ops[i]) then WriteRanges(ops[..i]) + [WriteRange(ops[i])] else WriteRanges(ops[..i])
    ensures WriteRangesValid(ops) ==> WriteRangesValid(ops[..i + 1])
  {
    hide RangesOverlap;
    var init, upTo := ops[..i], ops[..i + 1];
    assert upTo[..i] == init;
    assert forall j :: 0 <= j < i ==> init[j] == ops[j] == upTo[j];
    if Writes(ops[i]) {
      ClearOfWrites(init, WriteRange(ops[i]));
    }
  }

  /** Compares every write range of a transaction with the ones before it. */
  method CheckWriteRanges(ops: seq<Op>) returns (valid: bool)
    ensures valid <==> WriteRangesValid(ops)
  {
    hide Apart, WriteRangesValid;
    var ranges: seq<(Str, Str)> := [];
    NoWrites(ops);
    for i := 0 to |ops|
      invariant ranges == WriteRanges(ops[..i]) && WriteRangesValid(ops[..i])
    {
      hide WriteRangesValid, WriteRanges;
      ValidStep(ops, i);
      if !Writes(ops[i]) {
        continue;
      }
      var range := WriteRange(ops[i]);
      for k := 0 to |ranges|
        invariant forall j :: 0 <= j < k ==> Apart(ranges[j], range)
      {
        if !Apart(ranges[k], range) {
          return false;
        }
      }
      ranges := ranges + [range];
    }
    hide WriteRangesValid;
    assert ops[..|ops|] == ops;
    return true;
  }

  lemma NoWrites(ops: seq<Op>)
    ensures WriteRanges(ops[..0]) == [] && WriteRangesValid(ops[..0])
  {
  }

  lemma RunOpsStep(start: Db, ops: seq<Op>, i: nat, revision: nat)
    requires i < |ops| && RunOps(start, ops[..i], revision).1.Ok?
    ensures var (mid, responses) := RunOps(start, ops[..i], revision);
            var (after, r) := RunOp(mid, ops[i], revision);
            && RunOps(start, ops[..i + 1], revision).0 == after
            && RunOps(start, ops[..i + 1], revision).1 == (if r.Ok? then Ok(responses.value + [r.value]) else Err(r.error))
  {
    assert ops[..i + 1][..i] == ops[..i];
  }

  /** Before each operation of a transaction, the keys it may write are untouched at its revision. */
  lemma NextOp(start: Db, mid: Db, ops: seq<Op>, i: nat, revision: nat)
    requires DbOk(start) && revision == start.revision && WriteRangesValid(ops) && i < |ops|
    requires AnyWrites(ops) ==> 0 < revision && AllOlder(start, revision)
    requires mid == RunOps(start, ops[..i], revision).0
    ensures mid.revision == revision && (Writes(ops[i]) ==> AnyWrites(ops))
    ensures forall key: Str :: InWrite(ops[i], key) ==> Older(mid, key, revision)
  {
    hide DbOk, RunOps, History, RangesOverlap, IsKeyInRange;
    var init := ops[..i];
    assert forall j :: 0 <= j < i ==> init[j] == ops[j];
    assert AnyWrites(init) ==> AnyWrites(ops);
    RunOpsKeepsOk(start, init, revision);
    forall key: Str | InWrite(ops[i], key)
      ensures Older(mid, key, revision)
    {
      assert Writes(ops[i]) && Older(start, key, revision);
      forall j | 0 <= j < i
        ensures !InWrite(init[j], key)
      {
        if Writes(ops[j]) {
          DisjointRanges(WriteStart(ops[j]), WriteEnd(ops[j]), WriteStart(ops[i]), WriteEnd(ops[i]), key);
        }
      }
    }
  }

  lemma {:induction false} RefusedOps(start: Db, before: Db, after: Db, ops: seq<Op>, i: nat, revision: nat)
    requires i < |ops| && RunOps(start, ops[..i], revision).0 == before && RunOps(start, ops[..i], revision).1.Ok?
    requires after == RunOp(before, ops[i], revision).0 && RunOp(before, ops[i], revision).1.Err?
    ensures RunOps(start, ops, revision).0 == after
    ensures RunOps(start, ops, revision).1.Err? && RunOps(start, ops, revision).1.error == RunOp(before, ops[i], revision).1.error
    decreases |ops|
  {
    hide RunOp;
    if i + 1 < |ops| {
      assert ops[..|ops| - 1][..i] == ops[..i];
      RefusedOps(start, before, after, ops[..|ops| - 1], i, revision);
    }
  }

  lemma TxnCases(db: Db, t: TxnRequest)
    ensures var ops := Chosen(db, t);
            var start := TxnStart(db, ops);
            var (after, r) := RunOps(start, ops, start.revision);
            && (!WriteRangesValid(ops) ==> EtcdSpec.Txn(db, t) == (db, Err(DuplicateKey)))
            && (WriteRangesValid(ops) && r.Ok? ==>
                  EtcdSpec.Txn(db, t) == (after, Ok(TxnResponse(start.revision, Succeeds(db, t), r.value))))
            && (WriteRangesValid(ops) && r.Err? ==>
                  EtcdSpec.Txn(db, t) ==
                  (if AnyWrites(ops) then after.(lost := after.lost + {start.revision}) else after, Err(r.error)))
  {
  }

  lemma RefusedPut(db: Db, namespace: Str, o: PutOptions)
    requires EtcdSpec.Put(db, namespace, o).1.Err?
    ensures EtcdSpec.Put(db, namespace, o).0 == Bump(db)
  {
  }

  lemma ItemIsBatch(items: seq<(nat, seq<Entry>)>, db: Db, index: nat)
    requires TotalOrder(RevisionOrder()) && Sorted(RevisionOrder(), items) && HistoryOk(ToMap(items), db) && index < |items|
    ensures items[index].0 <= db.revision && items[index].1 == At(db.log, items[index].0)
    ensures forall i :: 0 <= i < |items[index].1| ==> items[index].1[i].revision == items[index].0
  {
    EntriesAgree(RevisionOrder(), items);
    AtRevision(db.log, items[index].0);
  }

  lemma {:induction false} AtRevision(log: Log, r: nat)
    ensures forall i :: 0 <= i < |At(log, r)| ==> At(log, r)[i].revision == r
  {
    if log != [] {
      AtRevision(log[..|log| - 1], r);
    }
  }

  lemma ReplayedStep(w: WatchSpec, items: seq<(nat, seq<Entry>)>, low: nat, index: nat)
    requires low <= index < |items|
    ensures Replayed(w, items[low..index + 1]) == Replayed(w, items[low..index]) + Respond(w, items[index].0, items[index].1)
  {
    var longer := items[low..index + 1];
    assert longer[..|longer| - 1] == items[low..index];
  }

  /** Replaying the retained batches from the start revision delivers exactly what is owed. */
  lemma ReplayIsOwed(w: WatchSpec, db: Db, items: seq<(nat, seq<Entry>)>, start: nat, low: nat)
    requires DbOk(db) && TotalOrder(RevisionOrder()) && Sorted(RevisionOrder(), items) && HistoryOk(ToMap(items), db)
    requires IsLowerBound(RevisionOrder(), items, start, low) && db.compacted < start
    ensures Replayed(w, items[low..]) ==
            Deliveries(w, db.log, EffectiveStart(Some(start), db.compacted, db.revision), db.revision, db.lost, db.revision)
  {
    hide TotalOrder, DbOk, Deliveries, HistoryOk, ToMap;
    ItemsUpTo(items, db, start, low);
    if start <= db.revision + 1 {
      assert SplitsAt(items, |items|, db.revision);
      ReplayUpTo(w, db, items, start, low, |items|, db.revision);
      assert items[low..|items|] == items[low..];
    } else {
      DeliverNone(w, db.log, db.revision + 1, db.revision, db.lost, db.revision);
    }
  }

  lemma ItemsUpTo(items: seq<(nat, seq<Entry>)>, db: Db, start: nat, low: nat)
    requires TotalOrder(RevisionOrder()) && Sorted(RevisionOrder(), items) && HistoryOk(ToMap(items), db)
    requires IsLowerBound(RevisionOrder(), items, start, low)
    ensures forall i :: 0 <= i < |items| ==> items[i].0 <= db.revision
    ensures start > db.revision ==> low == |items|
  {
    forall i | 0 <= i < |items|
      ensures items[i].0 <= db.revision
    {
      ItemIsBatch(items, db, i);
    }
  }

  /** The first `n` batches are those up to revision `r`. */
  predicate SplitsAt(items: seq<(nat, seq<Entry>)>, n: nat, r: nat) {
    && n <= |items|
    && (forall i :: 0 <= i < n ==> items[i].0 <= r)
    && (forall i :: n <= i < |items| ==> items[i].0 > r)
  }

  lemma {:induction false} ReplayUpTo(w: WatchSpec, db: Db, items: seq<(nat, seq<Entry>)>, start: nat, low: nat, n: nat, r: nat)
    requires TotalOrder(RevisionOrder()) && Sorted(RevisionOrder(), items) && HistoryOk(ToMap(items), db)
    requires IsLowerBound(RevisionOrder(), items, start, low) && db.compacted < start <= r + 1 && r <= db.revision
    requires low <= n && SplitsAt(items, n, r)
    ensures Replayed(w, items[low..n]) == Deliveries(w, db.log, start, r, db.lost, db.revision)
    decreases r
  {
    hide TotalOrder, HistoryOk, ToMap, At, Respond, Deliveries, Sorted, IsLowerBound, SplitsAt, Replayed;
    if r < start {
      DeliverNone(w, db.log, start, r, db.lost, db.revision);
      NoneYet(w, items, start, low, n, r);
    } else {
      DeliverOne(w, db.log, start, r, db.lost, db.revision);
      SplitBefore(items, db, start, low, n, r);
      if n > low && items[n - 1].0 == r {
        ReplayUpTo(w, db, items, start, low, n - 1, r - 1);
        ReplayedStep(w, items, low, n - 1);
      } else {
        ReplayUpTo(w, db, items, start, low, n, r - 1);
      }
    }
  }

  lemma NoneYet(w: WatchSpec, items: seq<(nat, seq<Entry>)>, start: nat, low: nat, n: nat, r: nat)
    requires IsLowerBound(RevisionOrder(), items, start, low) && low <= n && SplitsAt(items, n, r) && r < start
    ensures n == low && Replayed(w, items[low..n]) == []
  {
    assert low < |items| ==> RevisionOrder()(items[low].0, start) >= 0;
  }

  /** Going one revision back drops that revision's batch, if it has one. */
  lemma SplitBefore(items: seq<(nat, seq<Entry>)>, db: Db, start: nat, low: nat, n: nat, r: nat)
    requires TotalOrder(RevisionOrder()) && Sorted(RevisionOrder(), items) && HistoryOk(ToMap(items), db)
    requires IsLowerBound(RevisionOrder(), items, start, low) && db.compacted < start <= r
    requires low <= n && SplitsAt(items, n, r)
    ensures n <= |items|
    ensures if n > low && items[n - 1].0 == r then SplitsAt(items, n - 1, r - 1) && items[n - 1].1 == At(db.log, r)
            else SplitsAt(items, n, r - 1) && At(db.log, r) == []
  {
    hide TotalOrder, At;
    forall i | 0 <= i < n - 1
      ensures items[i].0 < items[n - 1].0
    {
      assert RevisionOrder()(items[i].0, items[n - 1].0) < 0;
    }
    if n > low && items[n - 1].0 == r {
      ItemIsBatch(items, db, n - 1);
    } else {
      if n == low && n > 0 {
        assert RevisionOrder()(items[n - 1].0, start) < 0;
      }
      ToMapKeys(items, r);
    }
  }

  function Replayed(w: WatchSpec, items: seq<(nat, seq<Entry>)>): seq<Response> {
    if items == [] then []
    else Replayed(w, items[..|items| - 1]) + Respond(w, items[|items| - 1].0, items[|items| - 1].1)
  }

  lemma NothingToShow(w: WatchSpec, revision: nat)
    ensures Respond(w, revision, []) == []
  {
  }

  lemma DeliverNone(w: WatchSpec, log: Log, from: nat, upTo: nat, lost: set<nat>, connectedAt: nat)
    requires upTo < from
    ensures Deliveries(w, log, from, upTo, lost, connectedAt) == []
  {
  }

  lemma DeliverOne(w: WatchSpec, log: Log, from: nat, revision: nat, lost: set<nat>, connectedAt: nat)
    requires 0 < revision
    ensures var before := Deliveries(w, log, from, revision - 1, lost, connectedAt);
            var after := Deliveries(w, log, from, revision, lost, connectedAt);
            && (from <= revision && !Silent(lost, connectedAt, revision) ==> after == before + Respond(w, revision, At(log, revision)))
            && (Silent(lost, connectedAt, revision) || At(log, revision) == [] ==> after == before)
  {
    var before := Deliveries(w, log, from, revision - 1, lost, connectedAt);
    assert before + [] == before;
    NothingToShow(w, revision);
  }

  function LiveValues(entries: seq<(Str, seq<Record>)>): seq<Stored> {
    if entries == [] then []
    else
      var before, current := LiveValues(entries[..|entries| - 1]), CurrentOf(entries[|entries| - 1].1);
      if current.Some? then before + [current.value] else before
  }

  /** A walk from the lower bound that stops at the first key outside the range misses nothing. */
  lemma RangeIsSlice(items: seq<(Str, seq<Record>)>, start: Str, rangeEnd: Str, low: nat, index: nat)
    requires TotalOrder(KeyOrder()) && Sorted(KeyOrder(), items) && IsLowerBound(KeyOrder(), items, start, low)
    requires low <= index <= |items|
    requires index < |items| ==> !IsKeyInRange(items[index].0, start, rangeEnd)
    ensures Sorted(KeyOrder(), items[low..index])
    ensures forall i :: low <= i < index ==> items[i].0 in ToMap(items) && items[i].1 == ToMap(items)[items[i].0]
    ensures forall key :: key in ToMap(items) && IsKeyInRange(key, start, rangeEnd) ==>
                            exists i :: 0 <= i < index - low && items[low..index][i].0 == key
  {
    hide TotalOrder, IsKeyInRange, Less, Sorted, IsLowerBound, ToMap;
    EntriesAgree(KeyOrder(), items);
    SliceSorted(items, low, index);
    forall key | key in ToMap(items) && IsKeyInRange(key, start, rangeEnd)
      ensures exists i :: 0 <= i < index - low && items[low..index][i].0 == key
    {
      ToMapKeys(items, key);
      var at :| 0 <= at < |items| && items[at].0 == key;
      InsideWalk(items, start, rangeEnd, low, index, at);
      assert items[low..index][at - low] == items[at];
    }
  }

  lemma SliceSorted(items: seq<(Str, seq<Record>)>, low: nat, index: nat)
    requires Sorted(KeyOrder(), items) && low <= index <= |items|
    ensures Sorted(KeyOrder(), items[low..index])
  {
  }

  lemma InsideWalk(items: seq<(Str, seq<Record>)>, start: Str, rangeEnd: Str, low: nat, index: nat, at: nat)
    requires Sorted(KeyOrder(), items) && IsLowerBound(KeyOrder(), items, start, low)
    requires low <= index <= |items| && at < |items| && IsKeyInRange(items[at].0, start, rangeEnd)
    requires index < |items| ==> !IsKeyInRange(items[index].0, start, rangeEnd)
    ensures low <= at < index
  {
    var key := items[at].0;
    if at < low {
      assert KeyOrder()(key, start) < 0;
      LessIrreflexive(start);
    }
    if index < at {
      assert KeyOrder()(items[index].0, key) < 0;
      assert KeyOrder()(items[index].0, start) >= 0;
      LessTotal(items[index].0, start);
      LessIrreflexive(start);
      AfterRange(items[index].0, key, start, rangeEnd);
    }
  }

  lemma AfterRange(outside: Str, key: Str, start: Str, rangeEnd: Str)
    requires !Less(outside, start) && (outside == key || Less(outside, key))
    requires !IsKeyInRange(outside, start, rangeEnd)
    ensures !IsKeyInRange(key, start, rangeEnd)
  {
    if outside != key {
      if rangeEnd == [] {
        if key == start {
          LessTotal(outside, start);
        }
      } else if rangeEnd != ZERO_KEY {
        LessTotal(outside, rangeEnd);
        if Less(rangeEnd, outside) {
          LessTransitive(rangeEnd, outside, key);
        }
        LessAsymmetricAll(rangeEnd, key);
      }
    }
  }

  lemma LessAsymmetricAll(a: Str, b: Str)
    ensures !(Less(a, b) && Less(b, a))
  {
    if Less(a, b) {
      LessAsymmetric(a, b);
    }
  }

  lemma LiveValuesAreDoomed(db: Db, histories: map<Str, seq<Record>>, entries: seq<(Str, seq<Record>)>, start: Str, rangeEnd: Str)
    requires DbOk(db) && HistoriesOk(histories, db) && Sorted(KeyOrder(), entries)
    requires forall i :: 0 <= i < |entries| ==>
                           && IsKeyInRange(entries[i].0, start, rangeEnd)
                           && entries[i].0 in histories && entries[i].1 == histories[entries[i].0]
    requires forall key :: key in histories && IsKeyInRange(key, start, rangeEnd) ==>
                             exists i :: 0 <= i < |entries| && entries[i].0 == key
    ensures LiveValues(entries) == Doomed(Current(db.log), start, rangeEnd)
  {
    hide DbOk, TotalOrder, IsKeyInRange, Sorted, Current;
    var s := Current(db.log);
    var live := LiveKeys(s, entries);
    EntriesShowLive(db, histories, entries);
    LiveKeysListing(s, entries);
    forall key
      ensures key in live <==> key in KeysIn(s, start, rangeEnd)
    {
      CurrentReadExact(db, key);
      LiveKeysMembers(s, entries, key);
    }
    KeyOrderIsTotal();
    ListingUnique(KeyOrder(), KeysIn(s, start, rangeEnd), live, SortSet(KeyOrder(), KeysIn(s, start, rangeEnd)));
  }

  lemma EntriesShowLive(db: Db, histories: map<Str, seq<Record>>, entries: seq<(Str, seq<Record>)>)
    requires DbOk(db) && HistoriesOk(histories, db)
    requires forall i :: 0 <= i < |entries| ==> entries[i].0 in histories && entries[i].1 == histories[entries[i].0]
    ensures forall i :: 0 <= i < |entries| ==> CurrentOf(entries[i].1) == Lookup(Current(db.log), entries[i].0)
  {
    forall i | 0 <= i < |entries|
      ensures CurrentOf(entries[i].1) == Lookup(Current(db.log), entries[i].0)
    {
      CurrentReadExact(db, entries[i].0);
    }
  }

  function LiveKeys(s: Snapshot, entries: seq<(Str, seq<Record>)>): seq<Str> {
    if entries == [] then []
    else
      var before, key := LiveKeys(s, entries[..|entries| - 1]), entries[|entries| - 1].0;
      if key in s then before + [key] else before
  }

  lemma {:induction false} LiveKeysMembers(s: Snapshot, entries: seq<(Str, seq<Record>)>, key: Str)
    ensures key in LiveKeys(s, entries) <==> key in s && exists i :: 0 <= i < |entries| && entries[i].0 == key
  {
    if entries != [] {
      var n := |entries| - 1;
      LiveKeysMembers(s, entries[..n], key);
      assert entries[n].0 == key ==> exists i :: 0 <= i < |entries| && entries[i].0 == key;
      if i :| 0 <= i < n && entries[i].0 == key {
        assert entries[..n][i].0 == key;
      }
    }
  }

  lemma {:induction false} LiveKeysListing(s: Snapshot, entries: seq<(Str, seq<Record>)>)
    requires Sorted(KeyOrder(), entries)
    requires forall i :: 0 <= i < |entries| ==> CurrentOf(entries[i].1) == Lookup(s, entries[i].0)
    ensures forall i, j :: 0 <= i < j < |LiveKeys(s, entries)| ==> KeyOrder()(LiveKeys(s, entries)[i], LiveKeys(s, entries)[j]) < 0
    ensures |LiveValues(entries)| == |LiveKeys(s, entries)|
    ensures forall i :: 0 <= i < |LiveKeys(s, entries)| ==>
                          LiveKeys(s, entries)[i] in s && LiveValues(entries)[i] == s[LiveKeys(s, entries)[i]]
  {
    if entries != [] {
      var n := |entries| - 1;
      LiveKeysListing(s, entries[..n]);
      forall i | 0 <= i < |LiveKeys(s, entries[..n])|
        ensures KeyOrder()(LiveKeys(s, entries[..n])[i], entries[n].0) < 0
      {
        LiveKeysMembers(s, entries[..n], LiveKeys(s, entries[..n])[i]);
        var j :| 0 <= j < n && entries[..n][j].0 == LiveKeys(s, entries[..n])[i];
        assert entries[j].0 == LiveKeys(s, entries[..n])[i];
      }
    }
  }

  method PrevKvs(doomed: seq<Stored>, namespace: Str) returns (prevKvs: seq<Stored>)
    ensures prevKvs == PublicKvs(doomed, namespace)
  {
    prevKvs := [];
    for i := 0 to |doomed|
      invariant prevKvs == PublicKvs(doomed[..i], namespace)
    {
      prevKvs := prevKvs + [ToPublicKv(doomed[i], namespace, false)];
    }
    assert doomed[..|doomed|] == doomed;
  }

  /** The next doomed value is still live after the earlier ones are deleted. */
  lemma NextDoomed(before: Db, now: Db, doomed: seq<Stored>, i: nat, revision: nat)
    requires DbOk(before) && 0 < revision == before.revision && DistinctKeys(doomed) && i < |doomed|
    requires forall j :: 0 <= j < |doomed| ==>
                           Lookup(Current(before.log), doomed[j].key) == Some(doomed[j]) && Older(before, doomed[j].key, revision)
    requires now == AppendDeletes(before, doomed[..i], revision)
    ensures Lookup(Current(now.log), doomed[i].key) == Some(doomed[i]) && Older(now, doomed[i].key, revision)
    ensures EventOk(Current(now.log), DeleteEntry(doomed[i], revision))
  {
    AppendDeletesKeepsOk(before, doomed[..i], revision);
    assert !HasKey(doomed[..i], doomed[i].key);
    assert SameKey(now, before, doomed[i].key);
  }

  /** The trimming loop: drop the oldest records beyond the retention, raising the watermark to
      each dropped revision. */
  method TrimRevisions(records: seq<Record>, retained: nat, compacted: nat) returns (revisions: seq<Record>, watermark: nat)
    requires Increasing(records)
    ensures revisions == Keep(records, retained)
    ensures watermark == Watermark(records, retained, compacted)
  {
    revisions, watermark := records, compacted;
    ghost var dropped := 0;
    while |revisions| > retained
      invariant dropped <= |records| && revisions == records[dropped..]
      invariant |revisions| < retained ==> dropped == 0
      invariant watermark == if dropped == 0 then compacted else Max(compacted, records[dropped - 1].modRevision)
    {
      var removed := revisions[0];
      revisions := revisions[1..];
      watermark := Max(watermark, removed.modRevision);
      dropped := dropped + 1;
    }
  }

  lemma KeepAppend(h: seq<Record>, r: Record, retained: nat, compacted: nat)
    requires Increasing(h) && LastRevision(h) < r.modRevision && retained > 0
    ensures var kept := Keep(h, retained) + [r];
            && Increasing(kept)
            && Keep(kept, retained) == Keep(h + [r], retained)
            && Watermark(kept, retained, compacted) == Watermark(h + [r], retained, compacted)
  {
    var d := if |h| < retained then 0 else |h| - retained;
    assert Keep(h, retained) == h[d..];
    SuffixAppend(h, r, d);
  }

  lemma SuffixAppend(h: seq<Record>, r: Record, d: nat)
    requires Increasing(h) && LastRevision(h) < r.modRevision && d <= |h|
    ensures h[d..] + [r] == (h + [r])[d..] && Increasing(h[d..] + [r])
    ensures d < |h| ==> (h[d..] + [r])[1..] == (h + [r])[d + 1..] && (h[d..] + [r])[0] == (h + [r])[d]
  {
    var longer := h + [r];
    assert forall i, j :: 0 <= i < j < |longer| ==> longer[i].modRevision < longer[j].modRevision;
    assert h[d..] + [r] == longer[d..];
  }

  /** Trimming the retained records after an append is trimming the whole history. */
  lemma KeepStep(before: Db, e: Entry, histories: map<Str, seq<Record>>)
    requires DbOk(before) && HistoriesOk(histories, before) && Older(before, e.Key(), e.revision)
    ensures var h := History(before.log, e.Key());
            var kept := Kept(histories, e.Key()) + [RecordOf(e)];
            && Increasing(kept)
            && Keep(kept, before.retained) == Keep(h + [RecordOf(e)], before.retained)
            && Watermark(kept, before.retained, before.compacted) == Append(before, e).compacted
  {
    var h := History(before.log, e.Key());
    HistoryIncreasing(before.log, e.Key());
    Extend(before.log, e, e.Key(), 0);
    hide Keep, Watermark, Increasing, History, TrimmedBelow, WellFormed;
    KeepAppend(h, RecordOf(e), before.retained, before.compacted);
    KeptIsKeep(histories, before, e.Key());
  }

  lemma KeptIsKeep(histories: map<Str, seq<Record>>, db: Db, key: Str)
    requires HistoriesOk(histories, db)
    ensures Kept(histories, key) == Keep(History(db.log, key), db.retained)
  {
  }

  function Batch(history: map<nat, seq<Entry>>, revision: nat): seq<Entry> {
    if revision in history then history[revision] else []
  }

  function Kept(histories: map<Str, seq<Record>>, key: Str): seq<Record> {
    if key in histories then histories[key] else []
  }

  /** Both structures still agree with the log once one event has been added to each. */
  lemma AppendAgrees(before: Db, e: Entry, histories: map<Str, seq<Record>>, history: map<nat, seq<Entry>>)
    requires Agrees(histories, history, before)
    requires before.compacted < e.revision == before.revision
    requires EventOk(Current(before.log), e) && Older(before, e.Key(), e.revision)
    ensures Agrees(histories[e.Key() := Keep(History(before.log, e.Key()) + [RecordOf(e)], before.retained)],
                   history[e.revision := Batch(history, e.revision) + [e]], Append(before, e))
    ensures Append(before, e).compacted < e.revision
  {
    hide DbOk, Current, EventOk, WellFormed, HistoriesOk, HistoryOk, Keep, History, At;
    AppendKeepsOk(before, e);
    HistoriesAfter(before, e, histories);
    HistoryAfter(before, e, history);
    AppendWatermark(before, e);
  }

  lemma AppendWatermark(before: Db, e: Entry)
    requires DbOk(before) && before.compacted < e.revision && Older(before, e.Key(), e.revision)
    ensures Append(before, e).compacted < e.revision
  {
    var h := History(before.log, e.Key());
    HistoryIncreasing(before.log, e.Key());
    Extend(before.log, e, e.Key(), 0);
    if |h| + 1 > before.retained {
      assert (h + [RecordOf(e)])[|h| - before.retained] == h[|h| - before.retained];
    }
  }

  lemma HistoriesAfter(before: Db, e: Entry, histories: map<Str, seq<Record>>)
    requires HistoriesOk(histories, before)
    ensures HistoriesOk(histories[e.Key() := Keep(History(before.log, e.Key()) + [RecordOf(e)], before.retained)], Append(before, e))
  {
    hide Keep, Watermark;
    forall key: Str
      ensures History(before.log + [e], key) == if key == e.Key() then History(before.log, key) + [RecordOf(e)] else History(before.log, key)
    {
      Extend(before.log, e, key, 0);
    }
  }

  lemma HistoryAfter(before: Db, e: Entry, history: map<nat, seq<Entry>>)
    requires HistoryOk(history, before) && before.compacted < e.revision == before.revision
    requires before.compacted <= Append(before, e).compacted
    ensures HistoryOk(history[e.revision := Batch(history, e.revision) + [e]], Append(before, e))
  {
    hide Watermark, History;
    forall r: nat
      ensures At(before.log + [e], r) == if r == e.revision then At(before.log, r) + [e] else At(before.log, r)
    {
      Extend(before.log, e, e.Key(), r);
    }
  }

  // ----- where a watcher does not hear what it asked for -----

  /** The store after one put of the key [1], and a watch of that key. */
  function OnePut(): PutOptions {
    PutOptions([1], Some([7]), false, false)
  }

  function OneKey(): WatchSpec {
    WatchSpec([], [1], [], false, {})
  }

  lemma OnePutShown(e: Entry)
    requires e == PutEntry(None, [1], OnePut(), 1)
    ensures At([e], 1) == [e] && Shows(OneKey(), [e]) == [Shown(OneKey(), e.event)]
  {
    hide Shown;
    assert [e][..0] == [];
    assert NamespacedKey([], [1]) == [1];
    assert Wanted(OneKey(), e);
    hide Wanted, PutEntry, OnePut, OneKey;
    assert Shows(OneKey(), []) == [];
    assert At([], 1) == [];
  }

  lemma OnePutOwed(e: Entry)
    requires e == PutEntry(None, [1], OnePut(), 1)
    ensures Owed(OneKey(), [e], 1, 1) == [Response(1, [Shown(OneKey(), e.event)])] && Owed(OneKey(), [e], 2, 1) == []
  {
    hide Shown, Shows, At, PutEntry, OnePut, OneKey;
    OnePutShown(e);
    assert Deliveries(OneKey(), [e], 1, 0, {}, 0) == [];
  }

  /** A watch that connects at revision 0 and asks to start at revision 2 starts at once: it hears
      the event of revision 1, for which it did not ask. */
  lemma EarlyEventExample()
    ensures var db := EtcdSpec.Put(Db(0, 0, 5, [], {}), [], OnePut()).0;
            && DbOk(db) && db.revision == 1 && db.lost == {}
            && Deliveries(OneKey(), db.log, EffectiveStart(Some(2), 0, 0), 1, db.lost, 0) != Owed(OneKey(), db.log, 2, 1) == []
  {
    var db0 := Db(0, 0, 5, [], {});
    PutKeepsOk(db0, [], OnePut());
    var e := PutEntry(None, [1], OnePut(), 1);
    assert NamespacedKey([], [1]) == [1] && [] + [e] == [e];
    OnePutOwed(e);
    assert Deliveries(OneKey(), [e], 1, 1, {}, 0) == Owed(OneKey(), [e], 1, 1);
  }

  function NoKey(): PutOptions {
    PutOptions([], None, false, false)
  }

  lemma RefusedRun(db: Db, first: Op, second: Op)
    requires first == PutOp(OnePut()) && second == PutOp(NoKey()) && db.log == []
    ensures RunOps(db, [first, second], 1) == (Append(db, PutEntry(None, [1], OnePut(), 1)), Err(EmptyKey))
    ensures WriteRangesValid([first, second])
  {
    assert WriteRangesValid([first, second]);
    hide Append, WriteRangesValid, Range, ApplyDelete, DoomedBy;
    assert [first][..0] == [] && [first, second][..1] == [first] && [first][0] == first && [first, second][1] == second;
    assert NamespacedKey([], [1]) == [1];
    assert Lookup(Current(db.log), [1]) == None;
    assert RunOps(db, [], 1) == (db, Ok([]));
    assert RunOp(db, first, 1) == (Append(db, PutEntry(None, [1], OnePut(), 1)), Ok(PutDone(PutResponse(1, None))));
    assert RunOps(db, [first], 1) == (Append(db, PutEntry(None, [1], OnePut(), 1)), Ok([] + [PutDone(PutResponse(1, None))]));
  }

  lemma RefusedTxn(db: Db, first: Op, second: Op)
    requires first == PutOp(OnePut()) && second == PutOp(NoKey()) && db.log == [] && db.revision == 0
    ensures var start := db.(revision := 1);
            EtcdSpec.Txn(db, TxnRequest([], [first, second], [])) ==
            (Append(start, PutEntry(None, [1], OnePut(), 1)).(lost := db.lost + {1}), Err(EmptyKey))
  {
    RefusedRun(db.(revision := 1), first, second);
    hide RunOps, WriteRangesValid, Append;
    assert Writes([first, second][0]);
    assert Succeeds(db, TxnRequest([], [first, second], []));
  }

  lemma NewDbOk()
    ensures DbOk(Db(0, 0, 5, [], {}))
  {
  }

  /** A transaction whose second put has no key is refused, and what it wrote first stays: a watch
      from revision 1 on, connected before, never hears of it. */
  lemma LostEventExample()
    ensures var (db, r) := EtcdSpec.Txn(Db(0, 0, 5, [], {}), TxnRequest([], [PutOp(OnePut()), PutOp(NoKey())], []));
            && r == Err(EmptyKey) && DbOk(db) && db.revision == 1 && db.lost == {1}
            && Lookup(Current(db.log), [1]).Some?
            && Deliveries(OneKey(), db.log, EffectiveStart(Some(1), 0, 0), 1, db.lost, 0) == [] != Owed(OneKey(), db.log, 1, 1)
  {
    hide DbOk, EtcdSpec.Txn, RunOps, Watermark;
    var db0, t := Db(0, 0, 5, [], {}), TxnRequest([], [PutOp(OnePut()), PutOp(NoKey())], []);
    NewDbOk();
    TxnKeepsOk(db0, t);
    RefusedTxn(db0, PutOp(OnePut()), PutOp(NoKey()));
    var e := PutEntry(None, [1], OnePut(), 1);
    assert [] + [e] == [e];
    Extend([], e, [1], 1);
    OnePutOwed(e);
    assert Deliveries(OneKey(), [e], 1, 0, {1}, 0) == [];
  }
}
