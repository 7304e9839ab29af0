/** A client's cache of one resource: listed once, then kept up by a watch. */
module Informer {
  import opened Options
  import opened Text
  import opened KeyRange
  import opened Mvcc
  import opened Watches

  /** What the cache tells its listeners. */
  datatype Call = Added(item: Stored) | Updated(item: Stored) | Removed(item: Stored)

  datatype Cache = Cache(objects: map<Str, Stored>, resourceVersion: Option<nat>, calls: seq<Call>)

  /** The watch that an informer opens: every event of its resource's keys, with previous values. */
  function ResourceWatch(prefix: Str, rangeEnd: Str): WatchSpec {
    WatchSpec([], prefix, rangeEnd, true, {})
  }

  predicate Concerns(w: WatchSpec, key: Str) {
    IsKeyInRange(key, NamespacedKey(w.namespace, w.key), NamespacedRangeEnd(w.namespace, w.rangeEnd))
  }

  /** The objects of the resource as they stood at a revision. */
  ghost function ViewAt(log: Log, w: WatchSpec, revision: nat): map<Str, Stored> {
    map k | k in SnapshotAt(log, revision) && Concerns(w, k) :: SnapshotAt(log, revision)[k]
  }

  // ----- what the cache does with an item -----

  /** Puts an object in, unless the very same version is there already. */
  function AddOrUpdate(c: Cache, item: Stored): Cache {
    var key := item.key;
    if key !in c.objects then c.(objects := c.objects[key := item], calls := c.calls + [Added(item)])
    else if c.objects[key].modRevision == item.modRevision then c
    else c.(objects := c.objects[key := item], calls := c.calls + [Updated(item)])
  }

  predicate IsNews(c: Cache, item: Stored) {
    item.key !in c.objects || c.objects[item.key].modRevision != item.modRevision
  }

  function Remove(c: Cache, item: Stored): Cache {
    if item.key in c.objects then c.(objects := c.objects - {item.key}, calls := c.calls + [Removed(item)]) else c
  }

  /** One event of the watch. The version already cached changes nothing, not even the resource
      version. */
  function Handle(c: Cache, e: Event): Cache {
    if e.kind.PutEvent? then
      if IsNews(c, e.kv) then AddOrUpdate(c, e.kv).(resourceVersion := Some(e.kv.modRevision)) else c
    else Remove(c, e.kv).(resourceVersion := Some(e.kv.modRevision))
  }

  function HandleAll(c: Cache, events: seq<Event>): Cache {
    if events == [] then c else Handle(HandleAll(c, events[..|events| - 1]), events[|events| - 1])
  }

  function AddAll(c: Cache, items: seq<Stored>): Cache {
    if items == [] then c else AddOrUpdate(AddAll(c, items[..|items| - 1]), items[|items| - 1])
  }

  // ----- what listeners can make of the calls -----

  function Replay(calls: seq<Call>): map<Str, Stored> {
    if calls == [] then map[]
    else
      var before := Replay(calls[..|calls| - 1]);
      match calls[|calls| - 1]
      case Added(o) => before[o.key := o]
      case Updated(o) => before[o.key := o]
      case Removed(o) => before - {o.key}
  }

  /** Every call says truly whether the object was there, and an update brings another version. */
  predicate Truthful(calls: seq<Call>) {
    calls == [] ||
    var before, last := Replay(calls[..|calls| - 1]), calls[|calls| - 1];
    && Truthful(calls[..|calls| - 1])
    && match last
       case Added(o) => o.key !in before
       case Updated(o) => o.key in before && before[o.key].modRevision != o.modRevision
       case Removed(o) => o.key in before
  }

  /** Folding the calls into an empty map gives the cache, and every call is truthful. */
  predicate Told(c: Cache) {
    Replay(c.calls) == c.objects && Truthful(c.calls)
  }

  /** The one call that an event causes, if it changes the cache, hands over the event's own object. */
  lemma CallOfEvent(c: Cache, e: Event) returns (call: Call)
    ensures var next := Handle(c, e);
            && call.item == e.kv && (call.Removed? <==> e.kind.DeleteEvent?)
            && next.calls == c.calls + if next.objects == c.objects then [] else [call]
  {
    var key := e.kv.key;
    call := if e.kind.DeleteEvent? then Removed(e.kv) else if key in c.objects then Updated(e.kv) else Added(e.kv);
    if e.kind.PutEvent? && IsNews(c, e.kv) {
      assert c.objects[key := e.kv][key] == e.kv;
    } else if e.kind.DeleteEvent? && key in c.objects {
      assert key !in c.objects - {key};
    }
    assert c.calls + [] == c.calls;
  }

  lemma AddKeepsTold(c: Cache, item: Stored)
    requires Told(c)
    ensures Told(AddOrUpdate(c, item))
  {
    var next := AddOrUpdate(c, item);
    if next != c {
      assert next.calls[..|next.calls| - 1] == c.calls;
    }
  }

  lemma RemoveKeepsTold(c: Cache, item: Stored)
    requires Told(c)
    ensures Told(Remove(c, item))
  {
    var next := Remove(c, item);
    if next != c {
      assert next.calls[..|next.calls| - 1] == c.calls;
    }
  }

  lemma {:induction false} HandleKeepsTold(c: Cache, events: seq<Event>)
    requires Told(c)
    ensures Told(HandleAll(c, events))
  {
    if events != [] {
      var init, last := events[..|events| - 1], events[|events| - 1];
      HandleKeepsTold(c, init);
      AddKeepsTold(HandleAll(c, init), last.kv);
      RemoveKeepsTold(HandleAll(c, init), last.kv);
    }
  }

  // ----- versions are identified by key and revision -----

  lemma {:induction false} InHistory(log: Log, i: nat)
    requires i < |log|
    ensures RecordOf(log[i]) in History(log, log[i].Key())
  {
    if i < |log| - 1 {
      InHistory(log[..|log| - 1], i);
    }
  }

  lemma {:induction false} KeyRevisionsIncrease(log: Log, i: nat, j: nat)
    requires WellFormed(log) && i < j < |log| && log[i].Key() == log[j].Key() && EntryRevisions(log)
    ensures log[i].revision < log[j].revision
  {
    var init := log[..|log| - 1];
    if j < |log| - 1 {
      KeyRevisionsIncrease(init, i, j);
    } else {
      InHistory(init, i);
      HistoryIncreasing(init, log[j].Key());
      var h := History(init, log[j].Key());
      var k :| 0 <= k < |h| && h[k] == RecordOf(log[i]);
      assert h[k].modRevision <= LastRevision(h);
    }
  }

  /** Values carry the revision of the event that made them. */
  predicate EntryRevisions(log: Log) {
    forall i :: 0 <= i < |log| ==> log[i].event.kv.modRevision == log[i].revision
  }

  lemma {:induction false} RevisionsCarried(log: Log)
    requires WellFormed(log)
    ensures EntryRevisions(log)
  {
    if log != [] {
      RevisionsCarried(log[..|log| - 1]);
    }
  }

  /** An object that some put of the log made. */
  predicate Genuine(log: Log, o: Stored) {
    exists i :: 0 <= i < |log| && log[i].event.kind.PutEvent? && log[i].event.kv == o
  }

  lemma SameVersionSameObject(log: Log, a: Stored, b: Stored)
    requires WellFormed(log) && Genuine(log, a) && Genuine(log, b) && a.key == b.key && a.modRevision == b.modRevision
    ensures a == b
  {
    RevisionsCarried(log);
    var i :| 0 <= i < |log| && log[i].event.kind.PutEvent? && log[i].event.kv == a;
    var j :| 0 <= j < |log| && log[j].event.kind.PutEvent? && log[j].event.kv == b;
    if i < j {
      KeyRevisionsIncrease(log, i, j);
    } else if j < i {
      KeyRevisionsIncrease(log, j, i);
    }
  }

  lemma {:induction false} SnapshotGenuine(log: Log, revision: nat, key: Str)
    ensures key in SnapshotAt(log, revision) ==> Genuine(log, SnapshotAt(log, revision)[key]) && SnapshotAt(log, revision)[key].key == key
  {
    if log != [] {
      var init, last := log[..|log| - 1], log[|log| - 1];
      SnapshotGenuine(init, revision, key);
      if key in SnapshotAt(init, revision) {
        var i :| 0 <= i < |init| && init[i].event.kind.PutEvent? && init[i].event.kv == SnapshotAt(init, revision)[key];
        assert log[i].event.kv == SnapshotAt(init, revision)[key];
      }
      if last.event.kind.PutEvent? {
        assert log[|log| - 1].event.kv == last.event.kv;
      }
    }
  }

  ghost predicate AllGenuine(log: Log, c: Cache) {
    forall k :: k in c.objects ==> c.objects[k].key == k && Genuine(log, c.objects[k])
  }

  // ----- replaying events onto a cache -----

  /** Some event of the resource touches the key between the two revisions. */
  predicate Touched(w: WatchSpec, log: Log, from: nat, upTo: nat, key: Str) {
    exists i :: 0 <= i < |log| && log[i].Key() == key && from <= log[i].revision <= upTo && Wanted(w, log[i])
  }

  lemma TouchedStep(w: WatchSpec, log: Log, from: nat, upTo: nat, key: Str)
    requires log != []
    ensures var init, last := log[..|log| - 1], log[|log| - 1];
            Touched(w, log, from, upTo, key) <==>
            Touched(w, init, from, upTo, key) || (last.Key() == key && from <= last.revision <= upTo && Wanted(w, last))
  {
    var n := |log| - 1;
    if Touched(w, log[..n], from, upTo, key) {
      var i :| 0 <= i < n && log[..n][i].Key() == key && from <= log[..n][i].revision <= upTo && Wanted(w, log[..n][i]);
      assert log[i].Key() == key;
    }
    if Touched(w, log, from, upTo, key) {
      var i :| 0 <= i < |log| && log[i].Key() == key && from <= log[i].revision <= upTo && Wanted(w, log[i]);
      assert i < n ==> log[..n][i].Key() == key;
    }
  }

  /** The events that a watch from `from` delivers up to `upTo`, nothing having been lost. */
  function Stream(w: WatchSpec, log: Log, from: nat, upTo: nat): seq<Event> {
    ShownAll(w, Carried(w, log, from, upTo, {}, 0))
  }

  lemma ShownAsIs(prefix: Str, rangeEnd: Str, e: Event)
    ensures Shown(ResourceWatch(prefix, rangeEnd), e) == e
  {
  }

  lemma HandleMore(c: Cache, events: seq<Event>, e: Event)
    ensures HandleAll(c, events + [e]) == Handle(HandleAll(c, events), e)
  {
    assert (events + [e])[..|events + [e]| - 1] == events;
  }

  /** What one more log entry does to the stream. */
  lemma StreamStep(w: WatchSpec, log: Log, from: nat, upTo: nat)
    requires log != [] && 0 < log[|log| - 1].revision
    ensures var init, last := log[..|log| - 1], log[|log| - 1];
            Stream(w, log, from, upTo) ==
            if from <= last.revision <= upTo && Wanted(w, last) then Stream(w, init, from, upTo) + [Shown(w, last.event)]
            else Stream(w, init, from, upTo)
  {
    var init, last := log[..|log| - 1], log[|log| - 1];
    ShownAllAppend(w, Carried(w, init, from, upTo, {}, 0), last);
  }

  /** After the events of a log: a touched key is as the log says, an untouched one as before. */
  predicate CaughtUpAt(w: WatchSpec, log: Log, from: nat, upTo: nat, start: Cache, now: Cache, key: Str) {
    if Touched(w, log, from, upTo, key) then Lookup(now.objects, key) == Lookup(SnapshotAt(log, upTo), key)
    else Lookup(now.objects, key) == Lookup(start.objects, key)
  }

  lemma {:induction false} EventsCatchUp(prefix: Str, rangeEnd: Str, whole: Log, log: Log, from: nat, upTo: nat, start: Cache)
    requires WellFormed(whole) && log <= whole && WellFormed(log) && AllGenuine(whole, start)
    ensures var w := ResourceWatch(prefix, rangeEnd);
            var now := HandleAll(start, Stream(w, log, from, upTo));
            AllGenuine(whole, now) && forall key: Str :: CaughtUpAt(w, log, from, upTo, start, now, key)
  {
    var w := ResourceWatch(prefix, rangeEnd);
    if log == [] {
      assert Stream(w, log, from, upTo) == [];
    } else {
      hide WellFormed, Wanted, Stream, HandleAll, Genuine, CaughtUpAt, AllGenuine, Handle;
      var init, last := log[..|log| - 1], log[|log| - 1];
      Prefixes(whole, log);
      EventsCatchUp(prefix, rangeEnd, whole, init, from, upTo, start);
      StreamStep(w, log, from, upTo);
      var before := HandleAll(start, Stream(w, init, from, upTo));
      var now := HandleAll(start, Stream(w, log, from, upTo));
      if from <= last.revision <= upTo && Wanted(w, last) {
        ShownAsIs(prefix, rangeEnd, last.event);
        HandleMore(start, Stream(w, init, from, upTo), last.event);
        LastGenuine(whole, log);
        HandleExact(whole, before, last);
      }
      forall key: Str
        ensures CaughtUpAt(w, log, from, upTo, start, now, key)
      {
        CatchUpStep(w, log, from, upTo, start, before, now, key);
      }
    }
  }

  lemma CatchUpStep(w: WatchSpec, log: Log, from: nat, upTo: nat, start: Cache, before: Cache, now: Cache, key: Str)
    requires WellFormed(log) && log != [] && w.filters == {}
    requires CaughtUpAt(w, log[..|log| - 1], from, upTo, start, before, key)
    requires var last := log[|log| - 1];
             if from <= last.revision <= upTo && Wanted(w, last) then
               Lookup(now.objects, key) == if key != last.Key() then Lookup(before.objects, key)
                                           else if last.event.kind.PutEvent? then Some(last.event.kv) else None
             else now == before
    ensures CaughtUpAt(w, log, from, upTo, start, now, key)
  {
    TouchedStep(w, log, from, upTo, key);
    TouchedEarlier(w, log, from, upTo, key);
    hide Touched, WellFormed, Wanted;
  }

  /** Once a key has been touched, a later event of it is one of the stream too. */
  lemma TouchedEarlier(w: WatchSpec, log: Log, from: nat, upTo: nat, key: Str)
    requires WellFormed(log) && log != [] && w.filters == {}
    ensures var init, last := log[..|log| - 1], log[|log| - 1];
            Touched(w, init, from, upTo, key) ==> from <= last.revision && (last.Key() == key ==> Wanted(w, last))
  {
    RevisionsBounded(log);
    var n := |log| - 1;
    if Touched(w, log[..n], from, upTo, key) {
      var i :| 0 <= i < n && log[..n][i].Key() == key && from <= log[..n][i].revision <= upTo && Wanted(w, log[..n][i]);
      assert log[i].revision <= log[n].revision;
    }
  }

  lemma Prefixes(whole: Log, log: Log)
    requires log != [] && log <= whole && WellFormed(log)
    ensures log[..|log| - 1] <= whole && WellFormed(log[..|log| - 1]) && 0 < log[|log| - 1].revision
  {
  }

  lemma LastGenuine(whole: Log, log: Log)
    requires log != [] && log <= whole && WellFormed(log)
    ensures var last := log[|log| - 1];
            (last.event.kind.PutEvent? ==> Genuine(whole, last.event.kv)) && last.event.kv.key == last.Key()
  {
    assert whole[|log| - 1] == log[|log| - 1];
  }

  /** Handling an event leaves its key as the event says, and every other key alone. */
  lemma HandleExact(whole: Log, c: Cache, e: Entry)
    requires WellFormed(whole) && AllGenuine(whole, c) && (e.event.kind.PutEvent? ==> Genuine(whole, e.event.kv))
    ensures var next := Handle(c, e.event);
            && AllGenuine(whole, next)
            && Lookup(next.objects, e.Key()) == (if e.event.kind.PutEvent? then Some(e.event.kv) else None)
            && forall key: Str :: key != e.Key() ==> Lookup(next.objects, key) == Lookup(c.objects, key)
  {
    hide WellFormed, Genuine;
    if e.event.kind.PutEvent? && !IsNews(c, e.event.kv) {
      SameVersionSameObject(whole, c.objects[e.Key()], e.event.kv);
    }
  }

  /** A key that no event touches is the same in both snapshots. */
  lemma {:induction false} UntouchedStays(w: WatchSpec, log: Log, from: nat, upTo: nat, key: Str)
    requires from <= upTo + 1 && 0 < from && !Touched(w, log, from, upTo, key) && Concerns(w, key) && w.filters == {}
    ensures Lookup(SnapshotAt(log, upTo), key) == Lookup(SnapshotAt(log, from - 1), key)
  {
    if log != [] {
      TouchedStep(w, log, from, upTo, key);
      UntouchedStays(w, log[..|log| - 1], from, upTo, key);
    }
  }

  /** The cache shows the resource as it stood at a revision. */
  ghost predicate Mirrors(log: Log, w: WatchSpec, c: Cache, revision: nat) {
    c.objects == ViewAt(log, w, revision)
  }

  lemma ShowsAt(log: Log, w: WatchSpec, c: Cache, revision: nat, key: Str)
    requires Mirrors(log, w, c, revision)
    ensures Lookup(c.objects, key) == if Concerns(w, key) then Lookup(SnapshotAt(log, revision), key) else None
  {
  }

  lemma ShowsGenuine(log: Log, w: WatchSpec, c: Cache, revision: nat)
    requires Mirrors(log, w, c, revision)
    ensures AllGenuine(log, c)
  {
    forall k | k in c.objects
      ensures c.objects[k].key == k && Genuine(log, c.objects[k])
    {
      SnapshotGenuine(log, revision, k);
    }
  }

  /** A watch that starts no later than where the cache stands brings it to any later revision,
      even when it repeats events that the cache has already seen. */
  lemma WatchCatchesUp(log: Log, prefix: Str, rangeEnd: Str, c: Cache, at: nat, from: nat, upTo: nat)
    requires var w := ResourceWatch(prefix, rangeEnd); WellFormed(log) && Mirrors(log, w, c, at)
    requires 0 < from <= at + 1 && at <= upTo
    ensures var w := ResourceWatch(prefix, rangeEnd); Mirrors(log, w, HandleAll(c, Stream(w, log, from, upTo)), upTo)
  {
    var w := ResourceWatch(prefix, rangeEnd);
    ShowsGenuine(log, w, c, at);
    EventsCatchUp(prefix, rangeEnd, log, log, from, upTo, c);
    var now := HandleAll(c, Stream(w, log, from, upTo));
    hide WellFormed, Stream, HandleAll, AllGenuine, Mirrors, Wanted;
    forall key: Str
      ensures Lookup(now.objects, key) == if Concerns(w, key) then Lookup(SnapshotAt(log, upTo), key) else None
    {
      assert CaughtUpAt(w, log, from, upTo, c, now, key);
      ShowsAt(log, w, c, at, key);
      if Concerns(w, key) {
        if !Touched(w, log, from, upTo, key) {
          UntouchedStays(w, log, from, upTo, key);
          UntouchedBetween(w, log, from, at + 1, upTo, key);
          UntouchedStays(w, log, at + 1, upTo, key);
        }
      } else {
        NeverTouched(w, log, from, upTo, key);
      }
    }
    LookupsShow(log, w, now, upTo);
  }

  lemma UntouchedBetween(w: WatchSpec, log: Log, from: nat, later: nat, upTo: nat, key: Str)
    requires from <= later && !Touched(w, log, from, upTo, key)
    ensures !Touched(w, log, later, upTo, key)
  {
  }

  lemma NeverTouched(w: WatchSpec, log: Log, from: nat, upTo: nat, key: Str)
    requires !Concerns(w, key)
    ensures !Touched(w, log, from, upTo, key)
  {
  }

  lemma LookupsShow(log: Log, w: WatchSpec, c: Cache, revision: nat)
    requires forall key: Str :: Lookup(c.objects, key) == if Concerns(w, key) then Lookup(SnapshotAt(log, revision), key) else None
    ensures Mirrors(log, w, c, revision)
  {
    var view := ViewAt(log, w, revision);
    forall key: Str
      ensures key in c.objects <==> key in view
      ensures key in c.objects ==> c.objects[key] == view[key]
    {
      assert Lookup(c.objects, key) == if Concerns(w, key) then Lookup(SnapshotAt(log, revision), key) else None;
    }
  }

  // ----- listing -----

  /** A listing of the resource at a revision: every object once. */
  ghost predicate Lists(log: Log, w: WatchSpec, revision: nat, items: seq<Stored>) {
    && (forall i :: 0 <= i < |items| ==> items[i].key in ViewAt(log, w, revision) && ViewAt(log, w, revision)[items[i].key] == items[i])
    && (forall k :: k in ViewAt(log, w, revision) ==> Listed(items, k))
    && (forall i, j :: 0 <= i < j < |items| ==> items[i].key != items[j].key)
  }

  predicate Listed(items: seq<Stored>, key: Str) {
    exists i :: 0 <= i < |items| && items[i].key == key
  }

  predicate SameIfSameVersion(c: Cache, item: Stored) {
    item.key in c.objects && c.objects[item.key].modRevision == item.modRevision ==> c.objects[item.key] == item
  }

  /** Adding items leaves every listed key with its item and the others alone. */
  lemma {:induction false} AddAllFacts(c: Cache, items: seq<Stored>, key: Str)
    requires forall i, j :: 0 <= i < j < |items| ==> items[i].key != items[j].key
    requires forall i :: 0 <= i < |items| ==> SameIfSameVersion(c, items[i])
    ensures !Listed(items, key) ==> Lookup(AddAll(c, items).objects, key) == Lookup(c.objects, key)
    ensures forall i :: 0 <= i < |items| && items[i].key == key ==> Lookup(AddAll(c, items).objects, key) == Some(items[i])
    ensures AddAll(c, items).resourceVersion == c.resourceVersion
  {
    if items != [] {
      var init, last := items[..|items| - 1], items[|items| - 1];
      forall i | 0 <= i < |init|
        ensures SameIfSameVersion(c, init[i])
      {
        assert SameIfSameVersion(c, items[i]);
      }
      hide SameIfSameVersion;
      AddAllFacts(c, init, key);
      AddAllFacts(c, init, last.key);
      LastNotListed(items);
      if Listed(init, key) {
        var i :| 0 <= i < |init| && init[i].key == key;
        assert items[i].key == key;
      }
      LastAdded(AddAll(c, init), c, last);
    }
  }

  lemma LastNotListed(items: seq<Stored>)
    requires items != [] && forall i, j :: 0 <= i < j < |items| ==> items[i].key != items[j].key
    ensures !Listed(items[..|items| - 1], items[|items| - 1].key)
  {
    var n := |items| - 1;
    forall i | 0 <= i < n
      ensures items[..n][i].key != items[n].key
    {
      assert items[..n][i] == items[i];
    }
  }

  lemma {:induction false} AddAllTold(c: Cache, items: seq<Stored>)
    requires Told(c)
    ensures Told(AddAll(c, items))
  {
    if items != [] {
      AddAllTold(c, items[..|items| - 1]);
      AddKeepsTold(AddAll(c, items[..|items| - 1]), items[|items| - 1]);
    }
  }

  lemma LastAdded(now: Cache, c: Cache, item: Stored)
    requires SameIfSameVersion(c, item) && Lookup(now.objects, item.key) == Lookup(c.objects, item.key)
    ensures Lookup(AddOrUpdate(now, item).objects, item.key) == Some(item)
    ensures forall key: Str :: key != item.key ==> Lookup(AddOrUpdate(now, item).objects, key) == Lookup(now.objects, key)
  {
  }

  /** The cache without the objects that a listing no longer has. */
  predicate Pruned(c: Cache, items: seq<Stored>, now: Cache) {
    && now.resourceVersion == c.resourceVersion
    && now.objects == map k | k in c.objects && Listed(items, k) :: c.objects[k]
  }

  /** After a listing the cache shows the resource as it was listed. */
  lemma ListShows(log: Log, w: WatchSpec, c: Cache, pruned: Cache, items: seq<Stored>, revision: nat)
    requires WellFormed(log) && AllGenuine(log, c) && Pruned(c, items, pruned) && Lists(log, w, revision, items)
    ensures Mirrors(log, w, AddAll(pruned, items), revision)
    ensures Told(pruned) ==> Told(AddAll(pruned, items))
  {
    var now, view := AddAll(pruned, items), ViewAt(log, w, revision);
    forall i | 0 <= i < |items|
      ensures SameIfSameVersion(pruned, items[i])
    {
      SnapshotGenuine(log, revision, items[i].key);
      if items[i].key in c.objects && c.objects[items[i].key].modRevision == items[i].modRevision {
        SameVersionSameObject(log, c.objects[items[i].key], items[i]);
      }
    }
    if Told(pruned) {
      AddAllTold(pruned, items);
    }
    hide WellFormed, Told, AllGenuine;
    forall key: Str
      ensures Lookup(now.objects, key) == Lookup(view, key)
    {
      AddAllFacts(pruned, items, key);
    }
    forall key: Str
      ensures key in now.objects <==> key in view
      ensures key in now.objects ==> now.objects[key] == view[key]
    {
      assert Lookup(now.objects, key) == Lookup(view, key);
    }
  }

  // ----- in step with the store -----

  /** The cache shows the resource at revision `at`, and nothing of the resource has happened since
      its own resource version. */
  ghost predicate Synced(log: Log, w: WatchSpec, c: Cache, at: nat) {
    && Mirrors(log, w, c, at)
    && c.resourceVersion.Some? && 0 < c.resourceVersion.value <= at
    && Quiet(w, log, c.resourceVersion.value + 1, at)
  }

  /** Nothing of the resource happens between two revisions. */
  ghost predicate Quiet(w: WatchSpec, log: Log, from: nat, upTo: nat) {
    forall key: Str :: !Touched(w, log, from, upTo, key)
  }

  /** A cache in step is the snapshot at its own resource version. */
  lemma MirrorsItsVersion(log: Log, prefix: Str, rangeEnd: Str, c: Cache, at: nat)
    requires Synced(log, ResourceWatch(prefix, rangeEnd), c, at)
    ensures Mirrors(log, ResourceWatch(prefix, rangeEnd), c, c.resourceVersion.value)
  {
    var w := ResourceWatch(prefix, rangeEnd);
    var version := c.resourceVersion.value;
    forall key: Str
      ensures Lookup(c.objects, key) == if Concerns(w, key) then Lookup(SnapshotAt(log, version), key) else None
    {
      ShowsAt(log, w, c, at, key);
      if Concerns(w, key) {
        UntouchedStays(w, log, version + 1, at, key);
      }
    }
    LookupsShow(log, w, c, version);
  }

  /** A listing at a positive revision puts the cache in step. */
  lemma ListSyncs(log: Log, w: WatchSpec, c: Cache, pruned: Cache, items: seq<Stored>, revision: nat)
    requires WellFormed(log) && AllGenuine(log, c) && Pruned(c, items, pruned) && Lists(log, w, revision, items) && revision > 0
    ensures Synced(log, w, AddAll(pruned, items).(resourceVersion := Some(revision)), revision)
  {
    ListShows(log, w, c, pruned, items, revision);
  }

  /** Objects of a snapshot are no newer than it; and where a key was not touched since `from`,
      they are older than `from`. */
  lemma {:induction false} SnapshotOlder(log: Log, revision: nat, key: Str)
    requires WellFormed(log)
    ensures key in SnapshotAt(log, revision) ==> SnapshotAt(log, revision)[key].modRevision <= revision
  {
    if log != [] {
      SnapshotOlder(log[..|log| - 1], revision, key);
    }
  }

  /** How far the resource version has come after the events of a log. */
  predicate Advanced(w: WatchSpec, log: Log, from: nat, upTo: nat, version: nat) {
    && from - 1 <= version && (version < from || version <= upTo)
    && forall i :: 0 <= i < |log| && from <= log[i].revision <= upTo && Wanted(w, log[i]) ==> log[i].revision <= version
  }

  lemma AdvancedStep(w: WatchSpec, log: Log, from: nat, upTo: nat, version: nat)
    requires log != [] && Advanced(w, log[..|log| - 1], from, upTo, version) && WellFormed(log)
    ensures var last := log[|log| - 1];
            Advanced(w, log, from, upTo, if from <= last.revision <= upTo && Wanted(w, last) then last.revision else version)
  {
    RevisionsBounded(log);
    var n := |log| - 1;
    assert forall i :: 0 <= i < n ==> log[..n][i] == log[i];
  }

  /** Every event of a stream that repeats nothing is news, so that the resource version follows. */
  lemma {:induction false} EventsAdvance(prefix: Str, rangeEnd: Str, whole: Log, log: Log, from: nat, upTo: nat, start: Cache)
    requires WellFormed(whole) && log <= whole && WellFormed(log) && AllGenuine(whole, start) && 0 < from
    requires start.resourceVersion == Some(from - 1) && forall k :: k in start.objects ==> start.objects[k].modRevision < from
    ensures var w := ResourceWatch(prefix, rangeEnd);
            var now := HandleAll(start, Stream(w, log, from, upTo));
            now.resourceVersion.Some? && Advanced(w, log, from, upTo, now.resourceVersion.value)
  {
    var w := ResourceWatch(prefix, rangeEnd);
    if log != [] {
      hide WellFormed, Wanted, Stream, HandleAll, Genuine, Advanced, AllGenuine;
      var init, last := log[..|log| - 1], log[|log| - 1];
      Prefixes(whole, log);
      EventsAdvance(prefix, rangeEnd, whole, init, from, upTo, start);
      EventsCatchUp(prefix, rangeEnd, whole, init, from, upTo, start);
      StreamStep(w, log, from, upTo);
      var before := HandleAll(start, Stream(w, init, from, upTo));
      AdvancedStep(w, log, from, upTo, before.resourceVersion.value);
      if from <= last.revision <= upTo && Wanted(w, last) {
        ShownAsIs(prefix, rangeEnd, last.event);
        HandleMore(start, Stream(w, init, from, upTo), last.event);
        assert CaughtUpAt(w, init, from, upTo, start, before, last.Key());
        StillOlder(w, log, from, upTo, start, before);
      }
    } else {
      assert Stream(w, log, from, upTo) == [];
    }
  }

  lemma StillOlder(w: WatchSpec, log: Log, from: nat, upTo: nat, start: Cache, before: Cache)
    requires WellFormed(log) && log != [] && from <= log[|log| - 1].revision
    requires CaughtUpAt(w, log[..|log| - 1], from, upTo, start, before, log[|log| - 1].Key())
    requires forall k :: k in start.objects ==> start.objects[k].modRevision < from
    ensures log[|log| - 1].event.kv.modRevision == log[|log| - 1].revision
    ensures log[|log| - 1].event.kind.PutEvent? ==> IsNews(before, log[|log| - 1].event.kv)
  {
    var init, last := log[..|log| - 1], log[|log| - 1];
    var key := last.Key();
    RevisionsCarried(log);
    if key in SnapshotAt(init, upTo) {
      SnapshotGenuine(init, upTo, key);
      var i :| 0 <= i < |init| && init[i].event.kind.PutEvent? && init[i].event.kv == SnapshotAt(init, upTo)[key];
      assert log[i] == init[i];
      KeyRevisionsIncrease(log, i, |log| - 1);
    }
  }

  /** A cache in step, fed everything that its watch delivers from its resource version on, is in
      step at the later revision. */
  lemma WatchKeepsStep(log: Log, prefix: Str, rangeEnd: Str, c: Cache, at: nat, upTo: nat)
    requires WellFormed(log) && Synced(log, ResourceWatch(prefix, rangeEnd), c, at) && at <= upTo
    ensures var w := ResourceWatch(prefix, rangeEnd);
            Synced(log, w, HandleAll(c, Stream(w, log, c.resourceVersion.value + 1, upTo)), upTo)
  {
    var w := ResourceWatch(prefix, rangeEnd);
    var from := c.resourceVersion.value + 1;
    var now := HandleAll(c, Stream(w, log, from, upTo));
    WatchCatchesUp(log, prefix, rangeEnd, c, at, from, upTo);
    ShowsGenuine(log, w, c, at);
    MirrorsItsVersion(log, prefix, rangeEnd, c, at);
    forall k | k in c.objects
      ensures c.objects[k].modRevision < from
    {
      ShowsAt(log, w, c, c.resourceVersion.value, k);
      SnapshotOlder(log, c.resourceVersion.value, k);
    }
    EventsAdvance(prefix, rangeEnd, log, log, from, upTo, c);
    hide WellFormed, Mirrors, HandleAll, Stream;
    AdvancedIsQuiet(w, log, from, upTo, now.resourceVersion.value);
  }

  lemma AdvancedIsQuiet(w: WatchSpec, log: Log, from: nat, upTo: nat, version: nat)
    requires Advanced(w, log, from, upTo, version) && 0 < from <= upTo + 1
    ensures Quiet(w, log, version + 1, upTo) && version <= upTo
  {
  }

  /** What an undisturbed watcher's client has heard is the stream from its start revision. */
  lemma HeardIsStream(w: WatchSpec, log: Log, start: nat, upTo: nat)
    requires WellFormed(log)
    ensures Flatten(Owed(w, log, start, upTo)) == Stream(w, log, start, upTo)
  {
    RevisionsBounded(log);
    DeliveriesCarry(w, log, start, upTo, {}, 0);
  }

  // A store with two keys, the first in key order written last.
  const FIRST: Stored := Stored([1], [], 2, 2, 1)
  const SECOND: Stored := Stored([2], [], 1, 1, 1)

  function TwoPuts(): Log {
    [Entry(1, Event(PutEvent, SECOND, None))] + [Entry(2, Event(PutEvent, FIRST, None))]
  }

  lemma TwoPutsSnapshots()
    ensures WellFormed(TwoPuts())
    ensures SnapshotAt(TwoPuts(), 1) == map[[2] := SECOND] && SnapshotAt(TwoPuts(), 2) == map[[2] := SECOND, [1] := FIRST]
  {
    var e1, e2 := Entry(1, Event(PutEvent, SECOND, None)), Entry(2, Event(PutEvent, FIRST, None));
    Extend([], e1, [2], 1);
    Extend([], e1, [2], 2);
    Extend([], e1, [1], 2);
    assert [] + [e1] == [e1];
    Extend([e1], e2, [1], 1);
    Extend([e1], e2, [1], 2);
  }

  /** A listing at revision 0 is repeated by the watch as initial events, in key order, and the
      resource version that is left is that of the last key: the cache can be ahead of it. */
  lemma InitialEventsLag()
    ensures var w := ResourceWatch([1], [3]);
            var c := HandleAll(Cache(map[], Some(0), []), [Event(PutEvent, FIRST, None), Event(PutEvent, SECOND, None)]);
            && WellFormed(TwoPuts()) && Mirrors(TwoPuts(), w, c, 2)
            && c.resourceVersion == Some(1) && !Mirrors(TwoPuts(), w, c, 1)
  {
    var w := ResourceWatch([1], [3]);
    TwoPutsSnapshots();
    InRange();
    var one, two := Event(PutEvent, FIRST, None), Event(PutEvent, SECOND, None);
    var c0 := Cache(map[], Some(0), []);
    HandleMore(c0, [one], two);
    HandleMore(c0, [], one);
    assert [] + [one] == [one] && [one] + [two] == [one, two];
    assert NamespacedKey([], [1]) == [1] && NamespacedRangeEnd([], [3]) == [3];
    hide SnapshotAt, IsKeyInRange, HandleAll, TwoPuts, WellFormed;
    var c := HandleAll(c0, [one, two]);
    assert FIRST.key == [1] && SECOND.key == [2];
    assert c.objects == map[[1] := FIRST, [2] := SECOND];
    assert ViewAt(TwoPuts(), w, 2) == c.objects;
    assert [1] !in ViewAt(TwoPuts(), w, 1);
  }

  lemma InRange()
    ensures IsKeyInRange([1], [1], [3]) && IsKeyInRange([2], [1], [3])
  {
  }

  // ----- the cache itself -----

  /** An informer's cache and what it has told its listeners. */
  class ListWatch {
    var objects: map<Str, Stored>
    var resourceVersion: Option<nat>
    var calls: seq<Call>

    ghost function View(): Cache
      reads this
    {
      Cache(objects, resourceVersion, calls)
    }

    /** Folding the calls made so far gives the cache, and objects are filed under their own keys. */
    ghost predicate Valid()
      reads this
    {
      Told(View()) && forall k :: k in objects ==> objects[k].key == k
    }

    constructor ()
      ensures Valid() && View() == Cache(map[], None, [])
    {
      objects, resourceVersion, calls := map[], None, [];
    }

    /** Afterwards the very version of the item is cached, and nothing else has changed; listeners are
        told once, and only of a version that was not there. */
    method AddOrUpdateObject(item: Stored) returns (changed: bool)
      requires Valid()
      modifies this`objects, this`calls
      ensures Valid() && View() == AddOrUpdate(old(View()), item)
      ensures item.key in objects && objects[item.key].modRevision == item.modRevision
      ensures forall key: Str :: key != item.key ==> Lookup(objects, key) == Lookup(old(objects), key)
      ensures changed == IsNews(old(View()), item) && (changed <==> calls != old(calls)) && (!changed ==> objects == old(objects))
      ensures changed ==> objects[item.key] == item && calls == old(calls) + [if item.key in old(objects) then Updated(item) else Added(item)]
    {
      AddKeepsTold(View(), item);
      hide Told;
      if item.key !in objects {
        objects := objects[item.key := item];
        calls := calls + [Added(item)];
        return true;
      }
      if objects[item.key].modRevision == item.modRevision {
        return false;
      }
      objects := objects[item.key := item];
      calls := calls + [Updated(item)];
      return true;
    }

    /** Afterwards the key is gone, and nothing else has changed; listeners are told if it was there. */
    method DeleteObject(item: Stored)
      requires Valid()
      modifies this`objects, this`calls
      ensures Valid() && View() == Remove(old(View()), item)
      ensures objects == old(objects) - {item.key}
      ensures calls == if item.key in old(objects) then old(calls) + [Removed(item)] else old(calls)
    {
      RemoveKeepsTold(View(), item);
      hide Told;
      if item.key !in objects {
        return;
      }
      objects := objects - {item.key};
      calls := calls + [Removed(item)];
    }

    /** One event from the watch. Its key is afterwards as the event says, and every other key as it
        was; the resource version follows every event that is news. */
    method WatchHandler(e: Event)
      requires Valid()
      modifies this
      ensures Valid() && View() == Handle(old(View()), e)
      ensures if e.kind.PutEvent? then e.kv.key in objects && objects[e.kv.key].modRevision == e.kv.modRevision else e.kv.key !in objects
      ensures forall key: Str :: key != e.kv.key ==> Lookup(objects, key) == Lookup(old(objects), key)
      ensures objects != old(objects) ==> resourceVersion == Some(e.kv.modRevision)
      ensures resourceVersion == Some(e.kv.modRevision) || (View() == old(View()) && e.kind.PutEvent?)
    {
      hide Replay;
      if e.kind.PutEvent? {
        var changed := AddOrUpdateObject(e.kv);
        if !changed {
          return;
        }
      } else {
        DeleteObject(e.kv);
      }
      resourceVersion := Some(e.kv.modRevision);
    }

    /** Drops what a new listing no longer has. */
    method DeleteItems(items: seq<Stored>)
      requires Valid()
      modifies this`objects, this`calls
      ensures Valid() && Pruned(old(View()), items, View())
    {
      var names: set<Str> := set i | 0 <= i < |items| :: items[i].key;
      assert forall k :: k in names <==> Listed(items, k);
      var was := objects;
      var left := was.Keys;
      while left != {}
        invariant left <= was.Keys && resourceVersion == old(resourceVersion) && Valid()
        invariant objects == map k | k in was && (k in left || k in names) :: was[k]
        decreases left
      {
        var name :| name in left;
        left := left - {name};
        if name !in names {
          DeleteObject(was[name]);
        }
      }
    }

    method AddOrUpdateItems(items: seq<Stored>)
      requires Valid()
      modifies this`objects, this`calls
      ensures Valid() && View() == AddAll(old(View()), items)
    {
      for i := 0 to |items|
        invariant Valid() && View() == AddAll(old(View()), items[..i])
      {
        assert items[..i + 1][..i] == items[..i];
        var _ := AddOrUpdateObject(items[i]);
      }
      assert items[..|items|] == items;
    }

    /** The listing that starts, or restarts, the informer. */
    method Relist(items: seq<Stored>, revision: nat, ghost log: Log, ghost w: WatchSpec)
      requires Valid() && WellFormed(log) && AllGenuine(log, View()) && Lists(log, w, revision, items)
      modifies this
      ensures Valid() && Mirrors(log, w, View(), revision) && resourceVersion == Some(revision)
      ensures if revision > 0 then Synced(log, w, View(), revision) else objects == map[]
    {
      ghost var before := View();
      DeleteItems(items);
      ghost var pruned := View();
      AddOrUpdateItems(items);
      ListShows(log, w, before, pruned, items, revision);
      if revision > 0 {
        ListSyncs(log, w, before, pruned, items, revision);
      }
      resourceVersion := Some(revision);
      if revision == 0 {
        NothingAtZero(log);
      }
    }
  }

  lemma {:induction false} NothingAtZero(log: Log)
    requires WellFormed(log)
    ensures SnapshotAt(log, 0) == map[]
  {
    if log != [] {
      NothingAtZero(log[..|log| - 1]);
    }
  }
}
