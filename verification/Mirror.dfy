/** An informer over a store that goes on changing and is compacted: it lists, watches from its
    resource version, loses its watch and opens it again, in time or too late. */
module Mirror {
  import opened Options
  import opened Text
  import opened KeyRange
  import opened Mvcc
  import opened Watches
  import opened Informer
  import Etcd

  /** The store's log, revision and watermark, and the informer. `at` is the log entry that its watch
      comes to next, or where the watch stood when it ended; `high` is how far any watch or listing has
      come. */
  datatype Client = Client(log: Log, revision: nat, compacted: nat, cache: Cache, open_: bool, at: nat, high: nat)

  datatype Step =
    | Commit(entries: Log, revision: nat)
    | Compact(upTo: nat)
    | List(items: seq<Stored>, gone: seq<Str>)
    | Open
    | OpenLate
    | OpenWithInitialEvents(items: seq<Stored>)
    | Deliver
    | End
    | Gone

  /** The number of log entries up to a revision. */
  function After(log: Log, revision: nat): (n: nat)
    ensures n <= |log|
  {
    if log == [] || log[|log| - 1].revision <= revision then |log| else After(log[..|log| - 1], revision)
  }

  /** Between the batches of two revisions. */
  predicate Boundary(log: Log, p: nat) {
    p <= |log| && (0 < p < |log| ==> log[p - 1].revision < log[p].revision)
  }

  /** Drops objects one by one, as a listing that lacks them does. */
  function RemoveAll(c: Cache, keys: seq<Str>): Cache {
    if keys == [] then c
    else
      var before := RemoveAll(c, keys[..|keys| - 1]);
      var key := keys[|keys| - 1];
      if key in before.objects then Remove(before, before.objects[key]) else before
  }

  /** The objects that a listing lacks, in some order. */
  predicate Lacking(c: Cache, items: seq<Stored>, gone: seq<Str>) {
    && (forall i :: 0 <= i < |gone| ==> !Listed(items, gone[i]))
    && (forall k :: k in c.objects && !Listed(items, k) ==> k in gone)
  }

  function Puts(items: seq<Stored>): seq<Event> {
    seq(|items|, i requires 0 <= i < |items| => Event(PutEvent, items[i], None))
  }

  predicate Enabled(w: WatchSpec, s: Client, step: Step) {
    match step
    case Commit(entries, revision) =>
      && s.revision < revision && WellFormed(s.log + entries)
      && forall i :: 0 <= i < |entries| ==> entries[i].revision == revision
    case Compact(upTo) => s.compacted <= upTo <= s.revision
    case List(items, gone) => !s.open_ && s.cache.resourceVersion.None? && IsListing(w, s, items) && Lacking(s.cache, items, gone)
    case Open =>
      !s.open_ && s.cache.resourceVersion.Some? && s.cache.resourceVersion.value > 0 && s.compacted <= s.cache.resourceVersion.value
    case OpenLate =>
      !s.open_ && s.cache.resourceVersion.Some? && s.cache.resourceVersion.value > 0 && s.cache.resourceVersion.value < s.compacted
    case OpenWithInitialEvents(items) => !s.open_ && s.cache.resourceVersion == Some(0) && IsListing(w, s, items)
    case Deliver => s.open_ && s.at < |s.log|
    case End => s.open_ && Boundary(s.log, s.at)
    case Gone => Boundary(s.log, s.at)
  }

  predicate IsListing(w: WatchSpec, s: Client, items: seq<Stored>) {
    && (forall i :: 0 <= i < |items| ==> Concerns(w, items[i].key) && Lookup(Current(s.log), items[i].key) == Some(items[i]))
    && (forall k :: k in Current(s.log) && Concerns(w, k) ==> Listed(items, k))
    && (forall i, j :: 0 <= i < j < |items| ==> items[i].key != items[j].key)
  }

  function Later(a: nat, b: nat): nat {
    if a < b then b else a
  }

  /** A watch that is opened at or below the watermark replays nothing: it hears what is new until it
      ends with an error, after which the informer keeps its version and does not list. Only a watch
      that reports its version gone (a status of 410) makes it list again. */
  function Apply(w: WatchSpec, s: Client, step: Step): Client
    requires Enabled(w, s, step)
  {
    match step
    case Commit(entries, revision) => s.(log := s.log + entries, revision := revision)
    case Compact(upTo) => s.(compacted := upTo)
    case List(items, gone) =>
      s.(cache := AddAll(RemoveAll(s.cache, gone), items).(resourceVersion := Some(s.revision)), at := |s.log|, high := |s.log|)
    case Open => s.(open_ := true, at := After(s.log, s.cache.resourceVersion.value))
    case OpenLate => s.(open_ := true, at := |s.log|, high := |s.log|)
    case OpenWithInitialEvents(items) =>
      s.(cache := HandleAll(s.cache, Puts(items)), open_ := true, at := |s.log|, high := |s.log|)
    case Deliver =>
      var e := s.log[s.at];
      s.(cache := if Wanted(w, e) then Handle(s.cache, Shown(w, e.event)) else s.cache,
         at := s.at + 1, high := Later(s.high, s.at + 1))
    case End => s.(open_ := false)
    case Gone => s.(open_ := false, cache := s.cache.(resourceVersion := None))
  }

  // ----- what the log shows of the resource after its first entries -----

  function Value(w: WatchSpec, log: Log, n: nat, key: Str): Option<Stored>
    requires n <= |log|
  {
    if Concerns(w, key) then Lookup(Current(log[..n]), key) else None
  }

  lemma ValueGrows(w: WatchSpec, log: Log, more: Log, n: nat, key: Str)
    requires n <= |log|
    ensures Value(w, log + more, n, key) == Value(w, log, n, key)
  {
    assert (log + more)[..n] == log[..n];
  }

  lemma ValueStep(w: WatchSpec, log: Log, n: nat, key: Str)
    requires n < |log| && w.filters == {}
    ensures Value(w, log, n + 1, key) ==
            if log[n].Key() == key && Wanted(w, log[n]) then (if log[n].event.kind.PutEvent? then Some(log[n].event.kv) else None)
            else Value(w, log, n, key)
  {
    assert log[..n + 1] == log[..n] + [log[n]];
    Extend(log[..n], log[n], key, 0);
  }

  /** Nothing of the resource happens to any key between two places of the log. */
  predicate Still(w: WatchSpec, log: Log, from: nat, upTo: nat) {
    forall i :: from <= i < upTo && i < |log| ==> !Wanted(w, log[i])
  }

  lemma {:induction false} ValueStill(w: WatchSpec, log: Log, from: nat, upTo: nat, key: Str)
    requires from <= upTo <= |log| && w.filters == {} && Still(w, log, from, upTo)
    ensures Value(w, log, upTo, key) == Value(w, log, from, key)
  {
    if from < upTo {
      ValueStill(w, log, from, upTo - 1, key);
      ValueStep(w, log, upTo - 1, key);
    }
  }

  lemma {:induction false} AfterMeans(log: Log, revision: nat)
    requires WellFormed(log)
    ensures forall i :: 0 <= i < |log| ==> (i < After(log, revision) <==> log[i].revision <= revision)
  {
    RevisionsBounded(log);
    if log != [] && log[|log| - 1].revision > revision {
      AfterMeans(log[..|log| - 1], revision);
      assert forall i :: 0 <= i < |log| - 1 ==> log[..|log| - 1][i] == log[i];
    }
  }

  /** The snapshot at a revision is what the entries up to it make. */
  lemma {:induction false} SnapshotIsPrefix(log: Log, revision: nat)
    requires WellFormed(log)
    ensures SnapshotAt(log, revision) == Current(log[..After(log, revision)])
  {
    if log == [] {
    } else if log[|log| - 1].revision <= revision {
      RevisionsBounded(log);
      SnapshotOfAll(log, revision);
      assert log[..|log|] == log;
    } else {
      var init := log[..|log| - 1];
      SnapshotIsPrefix(init, revision);
      assert log[..After(init, revision)] == init[..After(init, revision)];
    }
  }

  // ----- every reachable state -----

  /** The cache shows a key as it stood at some point between two places of the log. */
  predicate ShownBetween(w: WatchSpec, s: Client, key: Str)
    requires s.high <= |s.log|
  {
    exists n :: s.at <= n <= s.high && Lookup(s.cache.objects, key) == Value(w, s.log, n, key)
  }

  /** The resource version is never ahead of the watch. */
  predicate NotAhead(s: Client, version: nat) {
    forall j :: s.at <= j < |s.log| ==> version < s.log[j].revision || (0 < s.at && s.log[j].revision == s.log[s.at - 1].revision == version)
  }

  ghost predicate Placed(s: Client) {
    && WellFormed(s.log) && (forall i :: 0 <= i < |s.log| ==> s.log[i].revision <= s.revision)
    && s.at <= s.high <= |s.log| && (!s.open_ ==> Boundary(s.log, s.at))
    && (s.open_ ==> s.cache.resourceVersion.Some?)
  }

  ghost predicate VersionOk(s: Client) {
    s.cache.resourceVersion.Some? ==>
      && s.cache.resourceVersion.value <= s.revision && NotAhead(s, s.cache.resourceVersion.value)
      && (s.cache.resourceVersion.value == 0 ==> s.cache.objects == map[])
  }

  /** What holds of an informer however late it opens its watches: it never runs ahead, it caches only
      what the store has held, and folding the calls gives the cache. */
  ghost predicate Steady(s: Client) {
    Placed(s) && VersionOk(s) && AllGenuine(s.log, s.cache) && Told(s.cache)
  }

  /** And what holds as long as it misses nothing. */
  ghost predicate Sound(w: WatchSpec, s: Client) {
    Steady(s) && (s.cache.resourceVersion.Some? ==> forall key: Str :: ShownBetween(w, s, key))
  }

  lemma GenuineGrows(log: Log, more: Log, c: Cache)
    requires AllGenuine(log, c)
    ensures AllGenuine(log + more, c)
  {
    forall k | k in c.objects
      ensures c.objects[k].key == k && Genuine(log + more, c.objects[k])
    {
      var i :| 0 <= i < |log| && log[i].event.kind.PutEvent? && log[i].event.kv == c.objects[k];
      assert (log + more)[i] == log[i];
    }
  }

  lemma CommitKeeps(w: WatchSpec, s: Client, entries: Log, revision: nat)
    requires Sound(w, s) && Enabled(w, s, Commit(entries, revision))
    ensures Sound(w, Apply(w, s, Commit(entries, revision)))
  {
    var t := Apply(w, s, Commit(entries, revision));
    hide AllGenuine, Told, Value, WellFormed, ShownBetween, Placed, VersionOk;
    GenuineGrows(s.log, entries, s.cache);
    CommitPlaces(s, entries, revision, t);
    CommitShows(w, s, entries, t);
  }

  lemma CommitPlaces(s: Client, entries: Log, revision: nat, t: Client)
    requires Placed(s) && VersionOk(s) && s.revision < revision && WellFormed(s.log + entries)
    requires forall i :: 0 <= i < |entries| ==> entries[i].revision == revision
    requires t == s.(log := s.log + entries, revision := revision)
    ensures Placed(t) && VersionOk(t)
  {
    hide WellFormed;
    assert forall i :: 0 <= i < |t.log| ==> t.log[i] == if i < |s.log| then s.log[i] else entries[i - |s.log|];
  }

  lemma CommitShows(w: WatchSpec, s: Client, entries: Log, t: Client)
    requires s.high <= |s.log| && t.log == s.log + entries && t.cache == s.cache && t.at == s.at && t.high == s.high
    ensures forall key: Str :: s.cache.resourceVersion.Some? && ShownBetween(w, s, key) ==> ShownBetween(w, t, key)
  {
    hide Value;
    if s.cache.resourceVersion.Some? {
      forall key: Str | ShownBetween(w, s, key)
        ensures ShownBetween(w, t, key)
      {
        var n :| s.at <= n <= s.high && Lookup(s.cache.objects, key) == Value(w, s.log, n, key);
        ValueGrows(w, s.log, entries, n, key);
      }
    }
  }

  // ----- listing -----

  lemma {:induction false} RemoveAllFacts(c: Cache, keys: seq<Str>)
    requires forall k :: k in c.objects ==> c.objects[k].key == k
    ensures var now := RemoveAll(c, keys);
            && now.objects == (map k | k in c.objects && k !in keys :: c.objects[k])
            && now.resourceVersion == c.resourceVersion && (Told(c) ==> Told(now))
  {
    if keys != [] {
      var init, key := keys[..|keys| - 1], keys[|keys| - 1];
      assert keys == init + [key];
      RemoveAllFacts(c, init);
      var before := RemoveAll(c, init);
      if key in before.objects && Told(c) {
        RemoveKeepsTold(before, before.objects[key]);
      }
    }
  }

  lemma LackingPrunes(c: Cache, items: seq<Stored>, gone: seq<Str>)
    requires (forall k :: k in c.objects ==> c.objects[k].key == k) && Lacking(c, items, gone)
    ensures Pruned(c, items, RemoveAll(c, gone)) && (Told(c) ==> Told(RemoveAll(c, gone)))
  {
    RemoveAllFacts(c, gone);
    hide Told, RemoveAll, Listed;
  }

  /** Listing what is live is listing the resource at the store's revision. */
  lemma ListingIsNow(w: WatchSpec, s: Client, items: seq<Stored>)
    requires Placed(s) && IsListing(w, s, items)
    ensures Lists(s.log, w, s.revision, items)
    ensures SnapshotAt(s.log, s.revision) == Current(s.log)
  {
    SnapshotOfAll(s.log, s.revision);
  }

  lemma MirrorsNow(w: WatchSpec, s: Client, c: Cache, key: Str)
    requires Placed(s) && Mirrors(s.log, w, c, s.revision)
    ensures Lookup(c.objects, key) == Value(w, s.log, |s.log|, key)
  {
    SnapshotOfAll(s.log, s.revision);
    ShowsAt(s.log, w, c, s.revision, key);
    assert s.log[..|s.log|] == s.log;
  }

  lemma ListKeeps(w: WatchSpec, s: Client, items: seq<Stored>, gone: seq<Str>)
    requires Steady(s) && Enabled(w, s, List(items, gone))
    ensures Sound(w, Apply(w, s, List(items, gone)))
  {
    hide WellFormed, Told, Genuine, Lists, RemoveAll, AddAll, Lacking, IsListing, Mirrors, Value, Pruned, ShownBetween, Current;
    var t := Apply(w, s, List(items, gone));
    LackingPrunes(s.cache, items, gone);
    ListingIsNow(w, s, items);
    ListShows(s.log, w, s.cache, RemoveAll(s.cache, gone), items, s.revision);
    var listed := AddAll(RemoveAll(s.cache, gone), items);
    SameObjects(s.log, w, listed, t.cache, s.revision);
    ShowsGenuine(s.log, w, t.cache, s.revision);
    forall key: Str
      ensures ShownBetween(w, t, key)
    {
      MirrorsNow(w, s, t.cache, key);
      ShownHere(w, t, key);
    }
    if s.revision == 0 {
      EmptyAtZero(w, s, t.cache);
    }
  }

  lemma ShownHere(w: WatchSpec, s: Client, key: Str)
    requires s.at == s.high == |s.log| && Lookup(s.cache.objects, key) == Value(w, s.log, |s.log|, key)
    ensures ShownBetween(w, s, key)
  {
  }

  lemma SameObjects(log: Log, w: WatchSpec, a: Cache, b: Cache, revision: nat)
    requires Mirrors(log, w, a, revision) && Told(a) && b.objects == a.objects && b.calls == a.calls
    ensures Mirrors(log, w, b, revision) && Told(b)
  {
  }

  lemma EmptyAtZero(w: WatchSpec, s: Client, c: Cache)
    requires Placed(s) && s.revision == 0 && Mirrors(s.log, w, c, 0)
    ensures c.objects == map[]
  {
    NothingAtZero(s);
  }

  lemma NothingAtZero(s: Client)
    requires Placed(s)
    ensures s.log != [] ==> s.revision > 0
  {
  }

  // ----- initial events -----

  predicate DistinctKeys(items: seq<Stored>) {
    forall i, j :: 0 <= i < j < |items| ==> items[i].key != items[j].key
  }

  /** The events put every listed object into an empty cache and leave the version of the last. */
  ghost predicate FilledBy(c: Cache, handled: Cache, added: Cache, items: seq<Stored>) {
    && handled.objects == added.objects
    && handled.resourceVersion == (if items == [] then c.resourceVersion else Some(items[|items| - 1].modRevision))
    && forall key :: key in added.objects <==> Listed(items, key)
  }

  lemma FilledByOneMore(c: Cache, handled: Cache, added: Cache, init: seq<Stored>, last: Stored)
    requires FilledBy(c, handled, added, init) && !Listed(init, last.key)
    ensures FilledBy(c, Handle(handled, Event(PutEvent, last, None)), AddOrUpdate(added, last), init + [last])
  {
    ListedMore(init, last);
    hide Listed;
  }

  lemma {:induction false} InitialEvents(c: Cache, items: seq<Stored>)
    requires c.objects == map[] && DistinctKeys(items)
    ensures FilledBy(c, HandleAll(c, Puts(items)), AddAll(c, items), items)
  {
    if items == [] {
    } else {
      hide FilledBy, Handle, AddOrUpdate, HandleAll, AddAll, Puts, Listed;
      var init, last := items[..|items| - 1], items[|items| - 1];
      assert DistinctKeys(init);
      InitialEvents(c, init);
      LastNotListed(items);
      OneMorePut(c, init, last);
      HandleMore(c, Puts(init), Event(PutEvent, last, None));
      FilledByOneMore(c, HandleAll(c, Puts(init)), AddAll(c, init), init, last);
      assert items == init + [last];
    }
  }

  lemma OneMorePut(c: Cache, init: seq<Stored>, last: Stored)
    ensures Puts(init + [last]) == Puts(init) + [Event(PutEvent, last, None)]
    ensures AddAll(c, init + [last]) == AddOrUpdate(AddAll(c, init), last)
  {
    hide AddOrUpdate;
    assert (init + [last])[..|init + [last]| - 1] == init;
  }

  lemma ListedMore(init: seq<Stored>, last: Stored)
    ensures forall key :: Listed(init + [last], key) <==> Listed(init, key) || key == last.key
  {
    var items := init + [last];
    assert items[|init|] == last && forall i :: 0 <= i < |init| ==> items[i] == init[i];
  }

  lemma InitialShows(w: WatchSpec, s: Client, items: seq<Stored>)
    requires Steady(s) && Enabled(w, s, OpenWithInitialEvents(items))
    ensures var c := HandleAll(s.cache, Puts(items));
            && Mirrors(s.log, w, c, s.revision) && Told(c)
            && c.resourceVersion == Some(if items == [] then 0 else items[|items| - 1].modRevision)
  {
    var c := HandleAll(s.cache, Puts(items));
    InitialEvents(s.cache, items);
    HandleKeepsTold(s.cache, Puts(items));
    ListingIsNow(w, s, items);
    hide WellFormed, Told, Genuine, AddAll, HandleAll, IsListing, Lists, Puts, DistinctKeys, SnapshotAt, Current;
    assert Pruned(s.cache, items, s.cache) by { hide Listed; }
    ListShows(s.log, w, s.cache, s.cache, items, s.revision);
    hide Listed, Pruned;
  }

  lemma OpenFreshKeeps(w: WatchSpec, s: Client, items: seq<Stored>)
    requires Steady(s) && Enabled(w, s, OpenWithInitialEvents(items))
    ensures Sound(w, Apply(w, s, OpenWithInitialEvents(items)))
  {
    var t := Apply(w, s, OpenWithInitialEvents(items));
    InitialShows(w, s, items);
    ListedVersions(w, s, items);
    hide WellFormed, Told, Genuine, HandleAll, Mirrors, Value, Puts, IsListing, FilledBy;
    ShowsGenuine(s.log, w, t.cache, s.revision);
    forall key: Str
      ensures ShownBetween(w, t, key)
    {
      MirrorsNow(w, s, t.cache, key);
    }
    if items == [] {
      InitialEvents(s.cache, items);
      assert Puts(items) == [] by { hide *; assert |Puts(items)| == 0; }
    }
  }

  /** Listed objects carry positive revisions, none above the store's. */
  lemma ListedVersions(w: WatchSpec, s: Client, items: seq<Stored>)
    requires Placed(s) && IsListing(w, s, items)
    ensures forall i :: 0 <= i < |items| ==> 0 < items[i].modRevision <= s.revision
  {
    SnapshotOfAll(s.log, s.revision);
    RevisionsCarried(s.log);
    forall i | 0 <= i < |items|
      ensures 0 < items[i].modRevision <= s.revision
    {
      SnapshotGenuine(s.log, s.revision, items[i].key);
      var j :| 0 <= j < |s.log| && s.log[j].event.kind.PutEvent? && s.log[j].event.kv == items[i];
      PositiveRevisions(s.log, j);
    }
  }

  lemma {:induction false} PositiveRevisions(log: Log, j: nat)
    requires WellFormed(log) && j < |log|
    ensures 0 < log[j].revision
  {
    if j < |log| - 1 {
      PositiveRevisions(log[..|log| - 1], j);
    }
  }

  // ----- watching -----

  lemma OpenKeeps(w: WatchSpec, s: Client)
    requires Sound(w, s) && Enabled(w, s, Open)
    ensures Sound(w, Apply(w, s, Open))
  {
    var t := Apply(w, s, Open);
    var version := s.cache.resourceVersion.value;
    AfterMeans(s.log, version);
    NotBefore(s, version);
    hide WellFormed, Told, AllGenuine, Value, After;
    forall key: Str
      ensures ShownBetween(w, t, key)
    {
      assert ShownBetween(w, s, key);
      var n :| s.at <= n <= s.high && Lookup(s.cache.objects, key) == Value(w, s.log, n, key);
    }
  }

  /** A watch opened anew starts no later than where the last one ended. */
  lemma NotBefore(s: Client, version: nat)
    requires Placed(s) && !s.open_ && NotAhead(s, version)
    ensures After(s.log, version) <= s.at
  {
    AfterMeans(s.log, version);
    hide WellFormed;
    if s.at < |s.log| {
      assert version < s.log[s.at].revision;
    }
  }

  lemma DeliverKeeps(w: WatchSpec, s: Client)
    requires Sound(w, s) && Enabled(w, s, Deliver) && w == ResourceWatch(w.key, w.rangeEnd)
    ensures Sound(w, Apply(w, s, Deliver))
  {
    var t, e := Apply(w, s, Deliver), s.log[s.at];
    hide WellFormed, Told, AllGenuine, Value, Wanted, Handle, ShownBetween, NotAhead;
    DeliverSteady(w, s);
    ShownAsIs(w.key, w.rangeEnd, e.event);
    EntryGenuine(s.log, s.at);
    if Wanted(w, e) {
      HandleExact(s.log, s.cache, e);
    }
    forall key: Str
      ensures ShownBetween(w, t, key)
    {
      assert ShownBetween(w, s, key);
      DeliverShows(w, s, t, key);
    }
  }

  lemma DeliverSteady(w: WatchSpec, s: Client)
    requires Steady(s) && Enabled(w, s, Deliver) && w == ResourceWatch(w.key, w.rangeEnd)
    ensures Steady(Apply(w, s, Deliver))
  {
    var t, e := Apply(w, s, Deliver), s.log[s.at];
    hide WellFormed, Told, AllGenuine, Wanted, Handle, NotAhead;
    ShownAsIs(w.key, w.rangeEnd, e.event);
    EntryGenuine(s.log, s.at);
    if Wanted(w, e) {
      HandleExact(s.log, s.cache, e);
      assert HandleAll(s.cache, [e.event]) == Handle(s.cache, e.event) by { HandleMore(s.cache, [], e.event); assert [] + [e.event] == [e.event]; }
      HandleKeepsTold(s.cache, [e.event]);
    }
    DeliverVersion(w, s, t);
  }

  lemma EntryGenuine(log: Log, n: nat)
    requires n < |log|
    ensures log[n].event.kind.PutEvent? ==> Genuine(log, log[n].event.kv)
  {
  }

  lemma DeliverShows(w: WatchSpec, s: Client, t: Client, key: Str)
    requires s.at < |s.log| && s.at <= s.high <= |s.log| && w.filters == {} && ShownBetween(w, s, key)
    requires t.log == s.log && t.at == s.at + 1 && t.high == Later(s.high, s.at + 1)
    requires var e := s.log[s.at];
             Lookup(t.cache.objects, key) ==
             if e.Key() == key && Wanted(w, e) then (if e.event.kind.PutEvent? then Some(e.event.kv) else None)
             else Lookup(s.cache.objects, key)
    ensures ShownBetween(w, t, key)
  {
    hide Value, Wanted;
    ValueStep(w, s.log, s.at, key);
    var n :| s.at <= n <= s.high && Lookup(s.cache.objects, key) == Value(w, s.log, n, key);
    var m := if n == s.at || (s.log[s.at].Key() == key && Wanted(w, s.log[s.at])) then s.at + 1 else n;
    assert Lookup(t.cache.objects, key) == Value(w, s.log, m, key);
  }

  lemma DeliverVersion(w: WatchSpec, s: Client, t: Client)
    requires Placed(s) && VersionOk(s) && s.open_ && s.at < |s.log|
    requires var e := s.log[s.at]; t == s.(cache := if Wanted(w, e) then Handle(s.cache, e.event) else s.cache,
                                         at := s.at + 1, high := Later(s.high, s.at + 1))
    ensures Placed(t) && VersionOk(t)
  {
    RevisionsBounded(s.log);
    RevisionsCarried(s.log);
    PositiveRevisions(s.log, s.at);
    hide WellFormed, Wanted;
  }

  lemma EndKeeps(w: WatchSpec, s: Client, step: Step)
    requires Sound(w, s) && Enabled(w, s, step) && (step.End? || step.Gone? || step.Compact?)
    ensures Sound(w, Apply(w, s, step))
  {
    hide WellFormed, AllGenuine, Value, Replay;
    var t := Apply(w, s, step);
    assert AllGenuine(t.log, t.cache) by { SameGenuine(s.log, s.cache, t.cache); }
    if t.cache.resourceVersion.Some? {
      forall key: Str
        ensures ShownBetween(w, t, key)
      {
        assert ShownBetween(w, s, key);
        var n :| s.at <= n <= s.high && Lookup(s.cache.objects, key) == Value(w, s.log, n, key);
      }
    }
  }

  lemma CommitSteady(w: WatchSpec, s: Client, entries: Log, revision: nat)
    requires Steady(s) && Enabled(w, s, Commit(entries, revision))
    ensures Steady(Apply(w, s, Commit(entries, revision)))
  {
    hide AllGenuine, Told, WellFormed, Placed, VersionOk;
    GenuineGrows(s.log, entries, s.cache);
    CommitPlaces(s, entries, revision, Apply(w, s, Commit(entries, revision)));
  }

  lemma OpenSteady(w: WatchSpec, s: Client)
    requires Steady(s) && Enabled(w, s, Open)
    ensures Steady(Apply(w, s, Open))
  {
    var version := s.cache.resourceVersion.value;
    AfterMeans(s.log, version);
    NotBefore(s, version);
    hide WellFormed, Told, AllGenuine, After;
  }

  lemma MoveSteady(w: WatchSpec, s: Client, step: Step)
    requires Steady(s) && Enabled(w, s, step) && (step.OpenLate? || step.End? || step.Gone? || step.Compact?)
    ensures Steady(Apply(w, s, step))
  {
    hide WellFormed, Replay;
  }

  lemma StepSteady(w: WatchSpec, s: Client, step: Step)
    requires Steady(s) && Enabled(w, s, step) && w == ResourceWatch(w.key, w.rangeEnd)
    ensures Steady(Apply(w, s, step))
  {
    hide Steady;
    match step {
      case Commit(entries, revision) => CommitSteady(w, s, entries, revision);
      case List(items, gone) => ListKeeps(w, s, items, gone);
      case Open => OpenSteady(w, s);
      case OpenWithInitialEvents(items) => OpenFreshKeeps(w, s, items);
      case Deliver => DeliverSteady(w, s);
      case _ => MoveSteady(w, s, step);
    }
  }

  // ----- opening too late -----

  /** What a late watch would have to tell is known already: the object is cached in a version at
      least as new, or it is neither cached nor there any more. */
  predicate Reflected(c: Cache, live: Snapshot, e: Entry) {
    if e.Key() in c.objects then e.revision <= c.objects[e.Key()].modRevision else e.Key() !in live
  }

  predicate MissesNothing(w: WatchSpec, s: Client) {
    forall i :: s.at <= i < |s.log| && Wanted(w, s.log[i]) ==> Reflected(s.cache, Current(s.log), s.log[i])
  }

  /** A live object is the newest that its key has had. */
  lemma {:induction false} LiveIsNewest(log: Log, i: nat, key: Str)
    requires WellFormed(log) && i < |log| && log[i].Key() == key && key in Current(log)
    ensures log[i].revision <= Current(log)[key].modRevision
  {
    RevisionsCarried(log);
    RevisionsBounded(log);
    var init, last := log[..|log| - 1], log[|log| - 1];
    if last.Key() != key {
      LiveIsNewest(init, i, key);
    }
  }

  /** Where the last entries leave a key alone, it keeps its value. */
  lemma {:induction false} ValueKept(w: WatchSpec, log: Log, from: nat, upTo: nat, key: Str)
    requires from <= upTo <= |log| && w.filters == {}
    requires forall i :: from <= i < upTo && Wanted(w, log[i]) ==> log[i].Key() != key
    ensures Value(w, log, upTo, key) == Value(w, log, from, key)
  {
    if from < upTo {
      ValueKept(w, log, from, upTo - 1, key);
      ValueStep(w, log, upTo - 1, key);
    }
  }

  /** Where an object whose newest entry is reflected is what is live. */
  lemma ReflectedIsLive(w: WatchSpec, s: Client, key: Str)
    requires Placed(s) && AllGenuine(s.log, s.cache) && MissesNothing(w, s) && ShownBetween(w, s, key) && w.filters == {}
    ensures Lookup(s.cache.objects, key) == Value(w, s.log, |s.log|, key)
  {
    hide WellFormed;
    var n :| s.at <= n <= s.high && Lookup(s.cache.objects, key) == Value(w, s.log, n, key);
    assert s.log[..|s.log|] == s.log;
    if i :| s.at <= i < |s.log| && Wanted(w, s.log[i]) && s.log[i].Key() == key {
      assert Reflected(s.cache, Current(s.log), s.log[i]);
      if key in s.cache.objects {
        CachedIsNewest(w, s, key);
      }
    } else {
      ValueKept(w, s.log, s.at, n, key);
      ValueKept(w, s.log, s.at, |s.log|, key);
    }
  }

  /** No entry of a cached key is newer than what is cached. */
  lemma NoneNewer(w: WatchSpec, s: Client, i: nat, k: nat, revision: nat)
    requires WellFormed(s.log) && MissesNothing(w, s) && s.at <= i < |s.log| && k < |s.log| && s.log[k].Key() == s.log[i].Key()
    requires Wanted(w, s.log[i]) && Wanted(w, s.log[k])
    requires s.log[i].Key() in s.cache.objects && s.cache.objects[s.log[i].Key()].modRevision == revision
    ensures s.log[k].revision <= revision
  {
    hide WellFormed, Wanted;
    RevisionsCarried(s.log);
    assert Reflected(s.cache, Current(s.log), s.log[i]);
    if s.at <= k {
      assert Reflected(s.cache, Current(s.log), s.log[k]);
    } else {
      KeyRevisionsIncrease(s.log, k, i);
    }
  }

  lemma SameKeyWanted(w: WatchSpec, a: Entry, b: Entry)
    requires Wanted(w, a) && a.Key() == b.Key() && w.filters == {}
    ensures Wanted(w, b)
  {
  }

  lemma CachedIsNewest(w: WatchSpec, s: Client, key: Str)
    requires Placed(s) && AllGenuine(s.log, s.cache) && MissesNothing(w, s) && key in s.cache.objects && w.filters == {}
    requires exists i :: s.at <= i < |s.log| && Wanted(w, s.log[i]) && s.log[i].Key() == key
    ensures Value(w, s.log, |s.log|, key) == Some(s.cache.objects[key])
  {
    hide WellFormed, Wanted, MissesNothing, Value, Current;
    RevisionsCarried(s.log);
    var i :| s.at <= i < |s.log| && Wanted(w, s.log[i]) && s.log[i].Key() == key;
    var j :| 0 <= j < |s.log| && s.log[j].event.kind.PutEvent? && s.log[j].event.kv == s.cache.objects[key];
    SameKeyWanted(w, s.log[i], s.log[j]);
    forall k | 0 <= k < |s.log| && Wanted(w, s.log[k]) && s.log[k].Key() == key
      ensures k <= j
    {
      NoneNewer(w, s, i, k, s.log[j].revision);
      if j < k {
        KeyRevisionsIncrease(s.log, j, k);
      }
    }
    ValueStep(w, s.log, j, key);
    ValueKept(w, s.log, j + 1, |s.log|, key);
  }

  /** Exactly when a watch that is opened too late leaves the informer sound: it misses nothing. Where
      the resource version is not below the watermark no watch is late. */
  lemma LateOpeningExactly(w: WatchSpec, s: Client)
    requires Sound(w, s) && Enabled(w, s, OpenLate) && w.filters == {}
    ensures Sound(w, Apply(w, s, OpenLate)) <==> MissesNothing(w, s)
  {
    var t := Apply(w, s, OpenLate);
    hide WellFormed, AllGenuine, Told, MissesNothing, Reflected, Value;
    if MissesNothing(w, s) {
      forall key: Str
        ensures ShownBetween(w, t, key)
      {
        assert ShownBetween(w, s, key);
        ReflectedIsLive(w, s, key);
      }
    }
    if Sound(w, t) {
      SoundMissesNothing(w, s, t);
    }
  }

  lemma SoundMissesNothing(w: WatchSpec, s: Client, t: Client)
    requires Placed(s) && t.log == s.log && t.cache == s.cache && t.at == t.high == |s.log|
    requires forall key: Str :: ShownBetween(w, t, key)
    ensures MissesNothing(w, s)
  {
    assert s.log[..|s.log|] == s.log;
    forall i | s.at <= i < |s.log| && Wanted(w, s.log[i])
      ensures Reflected(s.cache, Current(s.log), s.log[i])
    {
      var key := s.log[i].Key();
      assert ShownBetween(w, t, key);
      if key in Current(s.log) {
        LiveIsNewest(s.log, i, key);
      }
    }
  }

  /** The steps of a run that keep the informer sound. */
  predicate InTime(w: WatchSpec, s: Client, step: Step) {
    step.OpenLate? ==> MissesNothing(w, s)
  }

  lemma SameGenuine(log: Log, a: Cache, b: Cache)
    requires AllGenuine(log, a) && b.objects == a.objects
    ensures AllGenuine(log, b)
  {
  }

  lemma StepKeeps(w: WatchSpec, s: Client, step: Step)
    requires Sound(w, s) && Enabled(w, s, step) && InTime(w, s, step) && w == ResourceWatch(w.key, w.rangeEnd)
    ensures Sound(w, Apply(w, s, step))
  {
    hide MissesNothing, Steady;
    assert Steady(s);
    hide Sound;
    match step {
      case Commit(entries, revision) => CommitKeeps(w, s, entries, revision);
      case List(items, gone) => ListKeeps(w, s, items, gone);
      case Open => OpenKeeps(w, s);
      case OpenLate => LateOpeningExactly(w, s);
      case Compact(_) => EndKeeps(w, s, step);
      case OpenWithInitialEvents(items) => OpenFreshKeeps(w, s, items);
      case Deliver => DeliverKeeps(w, s);
      case End => EndKeeps(w, s, step);
      case Gone => EndKeeps(w, s, step);
    }
  }

  /** The cache shows a key as the log does at the place of the watch. */
  predicate Shows(w: WatchSpec, s: Client, key: Str)
    requires s.at <= |s.log|
  {
    Lookup(s.cache.objects, key) == Value(w, s.log, s.at, key)
  }

  ghost predicate ShowsAll(w: WatchSpec, s: Client) {
    s.at <= |s.log| && forall key: Str :: Shows(w, s, key)
  }

  /** A new informer on any store. */
  ghost predicate Starts(s: Client) {
    && WellFormed(s.log) && (forall i :: 0 <= i < |s.log| ==> s.log[i].revision <= s.revision)
    && s.compacted <= s.revision && s.cache == Cache(map[], None, []) && !s.open_ && s.at == s.high == |s.log|
  }

  predicate Run(w: WatchSpec, states: seq<Client>, steps: seq<Step>) {
    && |states| == |steps| + 1
    && forall i :: 0 <= i < |steps| ==> Enabled(w, states[i], steps[i]) && states[i + 1] == Apply(w, states[i], steps[i])
  }

  /** In every state of every run whose late openings miss nothing, folding the calls gives the cache;
      and unless the informer is about to list, every object is shown as it stood at some point between
      the place of the watch and the furthest one reached. A watch that has reached that place shows
      the resource exactly. */
  lemma {:induction false} EveryState(w: WatchSpec, states: seq<Client>, steps: seq<Step>, n: nat)
    requires w == ResourceWatch(w.key, w.rangeEnd) && |states| == |steps| + 1 && Run(w, states, steps) && Starts(states[0]) && n <= |steps|
    requires forall i :: 0 <= i < |steps| ==> InTime(w, states[i], steps[i])
    ensures Sound(w, states[n]) && Told(states[n].cache)
    ensures states[n].cache.resourceVersion.Some? && states[n].at == states[n].high ==> ShowsAll(w, states[n])
  {
    hide Sound, Run, Starts, Apply, Value, ShowsAll, InTime;
    if n == 0 {
      StartIsSound(w, states[0]);
    } else {
      EveryState(w, states, steps, n - 1);
      StepOf(w, states, steps, n);
      StepKeeps(w, states[n - 1], steps[n - 1]);
    }
    SoundShows(w, states[n]);
  }

  /** In every state of every run, however late its watches are opened, the informer is steady. */
  lemma {:induction false} SteadyInEveryState(w: WatchSpec, states: seq<Client>, steps: seq<Step>, n: nat)
    requires w == ResourceWatch(w.key, w.rangeEnd) && |states| == |steps| + 1 && Run(w, states, steps) && Starts(states[0]) && n <= |steps|
    ensures Steady(states[n])
  {
    if n == 0 {
      StartIsSound(w, states[0]);
    } else {
      hide Steady, Run, Starts, Apply;
      SteadyInEveryState(w, states, steps, n - 1);
      StepOf(w, states, steps, n);
      StepSteady(w, states[n - 1], steps[n - 1]);
    }
  }

  lemma StartIsSound(w: WatchSpec, s: Client)
    requires Starts(s)
    ensures Sound(w, s)
  {
    hide WellFormed;
  }

  lemma StepOf(w: WatchSpec, states: seq<Client>, steps: seq<Step>, n: nat)
    requires Run(w, states, steps) && 0 < n <= |steps|
    ensures Enabled(w, states[n - 1], steps[n - 1]) && states[n] == Apply(w, states[n - 1], steps[n - 1])
  {
  }

  lemma SoundShows(w: WatchSpec, s: Client)
    requires Sound(w, s)
    ensures Told(s.cache) && s.at <= s.high <= |s.log|
    ensures s.cache.resourceVersion.Some? && s.at == s.high ==> ShowsAll(w, s)
  {
    hide WellFormed, AllGenuine, Replay, Value;
    if s.cache.resourceVersion.Some? && s.at == s.high {
      forall key: Str
        ensures Shows(w, s, key)
      {
        assert ShownBetween(w, s, key);
      }
    }
  }

  // ----- in step after every event -----

  /** The cache is what the log shows at the place of the watch, and also what it shows at the resource
      version, unless the watch is within the batch of that very revision. */
  ghost predicate InStep(w: WatchSpec, s: Client)
    requires s.at <= |s.log|
  {
    s.cache.resourceVersion.Some? ==> ShowsAll(w, s) && (InBatch(s, s.cache.resourceVersion.value) || ShowsVersion(w, s))
  }

  /** The last entry that the watch has passed is of this revision. */
  predicate InBatch(s: Client, revision: nat)
    requires s.at <= |s.log|
  {
    0 < s.at && s.log[s.at - 1].revision == revision
  }

  ghost predicate ShowsVersion(w: WatchSpec, s: Client) {
    s.cache.resourceVersion.Some? &&
    forall key: Str :: ShowsAtPlace(w, s, After(s.log, s.cache.resourceVersion.value), key)
  }

  predicate ShowsAtPlace(w: WatchSpec, s: Client, n: nat, key: Str)
    requires n <= |s.log|
  {
    Lookup(s.cache.objects, key) == Value(w, s.log, n, key)
  }

  /** Initial events after which the cache equals the resource at its own version. */
  ghost predicate Newest(w: WatchSpec, s: Client, items: seq<Stored>) {
    items == [] ||
    var last := items[|items| - 1].modRevision;
    && (forall i :: 0 <= i < |items| ==> items[i].modRevision <= last)
    && (forall key :: key in ViewAt(s.log, w, last) ==> Listed(items, key))
  }

  /** The steps of a run that keep the informer in step: initial events end with the newest object, and
      late openings miss nothing. */
  ghost predicate Calm(w: WatchSpec, s: Client, step: Step) {
    match step
    case OpenWithInitialEvents(items) => Newest(w, s, items)
    case OpenLate => MissesNothing(w, s)
    case _ => true
  }

  /** Later entries do not move the place of a revision. */
  lemma AfterGrows(log: Log, entries: Log, revision: nat)
    requires WellFormed(log) && WellFormed(log + entries) && forall i :: 0 <= i < |entries| ==> revision < entries[i].revision
    ensures After(log + entries, revision) == After(log, revision)
  {
    AfterMeans(log, revision);
    AfterMeans(log + entries, revision);
    hide After, WellFormed;
    forall i | 0 <= i < |log + entries|
      ensures i < |log| ==> (log + entries)[i].revision == log[i].revision
      ensures i >= |log| ==> revision < (log + entries)[i].revision
    {
      assert i >= |log| ==> (log + entries)[i] == entries[i - |log|];
    }
    var m, n := After(log + entries, revision), After(log, revision);
    assert n <= m by {
      assert n > 0 ==> log[n - 1].revision <= revision;
    }
    assert m <= n by {
      assert m > 0 ==> (log + entries)[m - 1].revision <= revision;
    }
  }

  lemma CommitInStep(w: WatchSpec, s: Client, entries: Log, revision: nat)
    requires Sound(w, s) && InStep(w, s) && Enabled(w, s, Commit(entries, revision))
    ensures InStep(w, Apply(w, s, Commit(entries, revision)))
  {
    hide WellFormed, AllGenuine, Told, Value, Wanted, ShownBetween, After;
    var t := Apply(w, s, Commit(entries, revision));
    if s.cache.resourceVersion.Some? {
      AfterGrows(s.log, entries, s.cache.resourceVersion.value);
      var place := After(s.log, s.cache.resourceVersion.value);
      forall key: Str
        ensures Shows(w, t, key) && (ShowsVersion(w, s) ==> ShowsAtPlace(w, t, place, key))
      {
        assert Shows(w, s, key);
        assert ShowsVersion(w, s) ==> ShowsAtPlace(w, s, place, key);
        ValueGrows(w, s.log, entries, s.at, key);
        ValueGrows(w, s.log, entries, place, key);
      }
    }
  }

  /** At the end of the log, the place of the watch is that of the store's revision. */
  lemma EndIsNow(w: WatchSpec, s: Client)
    requires Placed(s) && s.at == |s.log| && s.cache.resourceVersion == Some(s.revision) && ShowsAll(w, s)
    ensures InStep(w, s)
  {
    hide Value, WellFormed;
    assert After(s.log, s.revision) == |s.log|;
    forall key: Str
      ensures ShowsAtPlace(w, s, |s.log|, key)
    {
      assert Shows(w, s, key);
    }
  }

  lemma ListInStep(w: WatchSpec, s: Client, items: seq<Stored>, gone: seq<Str>)
    requires Sound(w, s) && Enabled(w, s, List(items, gone))
    ensures InStep(w, Apply(w, s, List(items, gone)))
  {
    hide WellFormed, AllGenuine, Told, Value, RemoveAll, AddAll, Lacking, IsListing, ShownBetween;
    ListKeeps(w, s, items, gone);
    SoundShows(w, Apply(w, s, List(items, gone)));
    EndIsNow(w, Apply(w, s, List(items, gone)));
  }

  /** Between batches a cache in step shows what the log shows at its version. */
  lemma InStepShowsVersion(w: WatchSpec, s: Client)
    requires Placed(s) && InStep(w, s) && s.cache.resourceVersion.Some? && Boundary(s.log, s.at)
    ensures ShowsVersion(w, s)
  {
    var version := s.cache.resourceVersion.value;
    if InBatch(s, version) {
      AfterMeans(s.log, version);
      RevisionsBounded(s.log);
      BatchEnds(s, version);
      hide Value, After, WellFormed;
      forall key: Str
        ensures ShowsAtPlace(w, s, s.at, key)
      {
        assert Shows(w, s, key);
      }
    }
  }

  lemma BatchEnds(s: Client, version: nat)
    requires WellFormed(s.log) && s.at <= |s.log| && Boundary(s.log, s.at) && InBatch(s, version)
    ensures After(s.log, version) == s.at
  {
    AfterMeans(s.log, version);
    hide After, WellFormed;
  }

  lemma OpenInStep(w: WatchSpec, s: Client)
    requires Sound(w, s) && InStep(w, s) && Enabled(w, s, Open)
    ensures InStep(w, Apply(w, s, Open))
  {
    var t := Apply(w, s, Open);
    InStepShowsVersion(w, s);
    hide WellFormed, AllGenuine, Told, Value, ShownBetween, After;
    forall key: Str
      ensures Shows(w, t, key) && ShowsAtPlace(w, t, t.at, key)
    {
      assert ShowsAtPlace(w, s, t.at, key);
    }
  }

  lemma OpenLateInStep(w: WatchSpec, s: Client)
    requires Sound(w, s) && InStep(w, s) && Enabled(w, s, OpenLate) && MissesNothing(w, s) && w.filters == {}
    ensures InStep(w, Apply(w, s, OpenLate))
  {
    var t := Apply(w, s, OpenLate);
    InStepShowsVersion(w, s);
    hide WellFormed, AllGenuine, Told, Value, ShownBetween, After, MissesNothing;
    LateOpeningExactly(w, s);
    SoundShows(w, t);
    forall key: Str
      ensures ShowsAtPlace(w, t, After(t.log, t.cache.resourceVersion.value), key)
    {
      assert ShowsAtPlace(w, s, After(t.log, t.cache.resourceVersion.value), key);
    }
  }

  lemma OpenFreshInStep(w: WatchSpec, s: Client, items: seq<Stored>)
    requires Sound(w, s) && Enabled(w, s, OpenWithInitialEvents(items)) && Newest(w, s, items) && w.filters == {}
    ensures InStep(w, Apply(w, s, OpenWithInitialEvents(items)))
  {
    var t := Apply(w, s, OpenWithInitialEvents(items));
    InitialEventsExactly(w, s, items);
    OpenFreshKeeps(w, s, items);
    assert WellFormed(s.log);
    hide Sound, AllGenuine, Told, Value, HandleAll, Puts, IsListing, ShownBetween, Wanted, Newest, Mirrors;
    SoundShows(w, t);
    hide WellFormed;
    var version := t.cache.resourceVersion.value;
    SnapshotIsPrefix(s.log, version);
    hide After;
    forall key: Str
      ensures ShowsAtPlace(w, t, After(s.log, version), key)
    {
      ShowsAt(s.log, w, t.cache, version, key);
      ValueAtPlace(w, s.log, version, key);
    }
  }

  lemma ValueAtPlace(w: WatchSpec, log: Log, version: nat, key: Str)
    requires WellFormed(log)
    ensures Value(w, log, After(log, version), key) == if Concerns(w, key) then Lookup(SnapshotAt(log, version), key) else None
  {
    SnapshotIsPrefix(log, version);
  }

  /** What is cached before an event of its key is older than the event, which is therefore news. */
  lemma EventIsNews(w: WatchSpec, s: Client)
    requires WellFormed(s.log) && s.at < |s.log| && Wanted(w, s.log[s.at]) && Shows(w, s, s.log[s.at].Key())
    ensures s.log[s.at].event.kind.PutEvent? ==> IsNews(s.cache, s.log[s.at].event.kv)
    ensures s.log[s.at].event.kv.modRevision == s.log[s.at].revision
  {
    var key, n := s.log[s.at].Key(), s.at;
    RevisionsCarried(s.log);
    if key in s.cache.objects {
      LiveFrom(s.log, n, key);
      var i :| 0 <= i < n && s.log[i].event.kind.PutEvent? && s.log[i].event.kv == Current(s.log[..n])[key] && s.log[i].Key() == key;
      KeyRevisionsIncrease(s.log, i, n);
    }
  }

  /** What is live after some entries was put by one of them. */
  lemma LiveFrom(log: Log, n: nat, key: Str)
    requires n <= |log| && key in Current(log[..n])
    ensures exists i :: 0 <= i < n && log[i].event.kind.PutEvent? && log[i].event.kv == Current(log[..n])[key] && log[i].Key() == key
  {
    CurrentGenuine(log[..n], key);
    var i :| 0 <= i < n && log[..n][i].event.kind.PutEvent? && log[..n][i].event.kv == Current(log[..n])[key];
    assert log[i] == log[..n][i];
  }

  lemma {:induction false} CurrentGenuine(log: Log, key: Str)
    ensures key in Current(log) ==> Genuine(log, Current(log)[key]) && Current(log)[key].key == key
  {
    if log != [] {
      var init, last := log[..|log| - 1], log[|log| - 1];
      CurrentGenuine(init, key);
      if key in Current(init) {
        var i :| 0 <= i < |init| && init[i].event.kind.PutEvent? && init[i].event.kv == Current(init)[key];
        assert log[i].event.kv == Current(init)[key];
      }
      if last.event.kind.PutEvent? {
        assert log[|log| - 1].event.kv == last.event.kv;
      }
    }
  }

  lemma DeliverInStep(w: WatchSpec, s: Client)
    requires Sound(w, s) && InStep(w, s) && Enabled(w, s, Deliver) && w == ResourceWatch(w.key, w.rangeEnd)
    ensures InStep(w, Apply(w, s, Deliver))
  {
    hide WellFormed, Told, AllGenuine, Value, Wanted, ShownBetween, NotAhead, After, ShowsVersion, Handle;
    var t, e := Apply(w, s, Deliver), s.log[s.at];
    ShownAsIs(w.key, w.rangeEnd, e.event);
    EntryGenuine(s.log, s.at);
    if Wanted(w, e) {
      HandleExact(s.log, s.cache, e);
      assert Shows(w, s, e.Key());
      EventIsNews(w, s);
      NewsMoves(s.cache, e.event);
    } else {
      PassesOn(w, s, t);
    }
    forall key: Str
      ensures Shows(w, t, key)
    {
      assert Shows(w, s, key);
      ValueStep(w, s.log, s.at, key);
    }
  }

  lemma NewsMoves(c: Cache, e: Event)
    requires e.kind.PutEvent? ==> IsNews(c, e.kv)
    ensures Handle(c, e).resourceVersion == Some(e.kv.modRevision)
  {
  }

  /** An entry of something else leaves the batch, or not. */
  lemma PassesOn(w: WatchSpec, s: Client, t: Client)
    requires Placed(s) && InStep(w, s) && s.at < |s.log| && s.cache.resourceVersion.Some?
    requires t.log == s.log && t.cache == s.cache && t.at == s.at + 1
    ensures InBatch(t, t.cache.resourceVersion.value) || ShowsVersion(w, t)
  {
    var version := s.cache.resourceVersion.value;
    RevisionsBounded(s.log);
    if ShowsVersion(w, s) {
      SameVersionShown(w, s, t);
    } else if s.log[s.at].revision != version {
      InStepShowsVersion(w, s);
      SameVersionShown(w, s, t);
    }
  }

  lemma SameVersionShown(w: WatchSpec, s: Client, t: Client)
    requires ShowsVersion(w, s) && t.log == s.log && t.cache == s.cache
    ensures ShowsVersion(w, t)
  {
    hide Value, After;
    var place := After(s.log, s.cache.resourceVersion.value);
    forall key: Str
      ensures ShowsAtPlace(w, t, place, key)
    {
      assert ShowsAtPlace(w, s, place, key);
    }
  }

  lemma StepInStep(w: WatchSpec, s: Client, step: Step)
    requires Sound(w, s) && InStep(w, s) && Enabled(w, s, step) && Calm(w, s, step) && w == ResourceWatch(w.key, w.rangeEnd)
    ensures Sound(w, Apply(w, s, step)) && InStep(w, Apply(w, s, step))
  {
    StepKeeps(w, s, step);
    hide Sound, Shows, Newest, MissesNothing, InStep;
    match step {
      case Commit(entries, revision) => CommitInStep(w, s, entries, revision);
      case List(items, gone) => ListInStep(w, s, items, gone);
      case Open => OpenInStep(w, s);
      case OpenLate => OpenLateInStep(w, s);
      case OpenWithInitialEvents(items) => OpenFreshInStep(w, s, items);
      case Deliver => DeliverInStep(w, s);
      case End => SameShows(w, s, Apply(w, s, step));
      case Compact(_) => SameShows(w, s, Apply(w, s, step));
      case Gone => NoVersion(w, Apply(w, s, step));
    }
  }

  lemma NoVersion(w: WatchSpec, s: Client)
    requires s.at <= |s.log| && s.cache.resourceVersion.None?
    ensures InStep(w, s)
  {
  }

  lemma SameShows(w: WatchSpec, s: Client, t: Client)
    requires s.at <= |s.log| && InStep(w, s) && t.log == s.log && t.at == s.at && t.cache == s.cache
    ensures InStep(w, t)
  {
    hide Value, After;
    if s.cache.resourceVersion.Some? {
      if ShowsVersion(w, s) {
        SameVersionShown(w, s, t);
      }
      forall key: Str
        ensures Shows(w, t, key)
      {
        assert Shows(w, s, key);
      }
    }
  }

  /** In every state of every run whose initial events end with the newest object and whose late
      openings miss nothing, and so after every single event, the cache is exactly what the log shows
      at the place of the watch; and between batches it is the store's snapshot of the resource at the
      cache's own resource version. */
  lemma {:induction false} MirrorsInEveryState(w: WatchSpec, states: seq<Client>, steps: seq<Step>, n: nat)
    requires w == ResourceWatch(w.key, w.rangeEnd) && |states| == |steps| + 1 && Run(w, states, steps) && Starts(states[0]) && n <= |steps|
    requires forall i :: 0 <= i < |steps| ==> Calm(w, states[i], steps[i])
    ensures Sound(w, states[n]) && InStep(w, states[n])
    ensures var s := states[n];
            s.cache.resourceVersion.Some? && Boundary(s.log, s.at) ==> Mirrors(s.log, w, s.cache, s.cache.resourceVersion.value)
  {
    if n == 0 {
      StartIsSound(w, states[0]);
    } else {
      MirrorsInEveryState(w, states, steps, n - 1);
      hide Sound, InStep, Run, Starts, Apply, Calm;
      StepOf(w, states, steps, n);
      assert Calm(w, states[n - 1], steps[n - 1]);
      StepInStep(w, states[n - 1], steps[n - 1]);
    }
    hide Run, Starts, Apply, Calm;
    var s := states[n];
    if s.cache.resourceVersion.Some? && Boundary(s.log, s.at) {
      MirrorsOwnVersion(w, s);
    }
  }

  lemma MirrorsOwnVersion(w: WatchSpec, s: Client)
    requires Sound(w, s) && InStep(w, s) && Boundary(s.log, s.at) && s.cache.resourceVersion.Some?
    ensures Mirrors(s.log, w, s.cache, s.cache.resourceVersion.value)
  {
    var version := s.cache.resourceVersion.value;
    InStepShowsVersion(w, s);
    hide WellFormed, AllGenuine, Told, Value, ShownBetween, After, NotAhead, Mirrors, InStep;
    assert forall key: Str :: ShowsAtPlace(w, s, After(s.log, version), key);
    PlaceShows(w, s, version);
  }

  lemma PlaceShows(w: WatchSpec, s: Client, version: nat)
    requires WellFormed(s.log)
    requires forall key: Str :: ShowsAtPlace(w, s, After(s.log, version), key)
    ensures Mirrors(s.log, w, s.cache, version)
  {
    hide WellFormed, SnapshotAt, After, Current, Value;
    forall key: Str
      ensures Lookup(s.cache.objects, key) == if Concerns(w, key) then Lookup(SnapshotAt(s.log, version), key) else None
    {
      assert ShowsAtPlace(w, s, After(s.log, version), key);
      ValueAtPlace(w, s.log, version, key);
    }
    LookupsShow(s.log, w, s.cache, version);
  }

  // ----- a watch that is opened too late -----

  const ONE: Stored := Stored([1], [7], 1, 1, 1)
  const TWO: Stored := Stored([1, 1], [8], 3, 3, 1)
  const ONE_PUT: Entry := Entry(1, Event(PutEvent, ONE, None))
  const ONE_DELETED: Entry := Entry(2, Event(DeleteEvent, ONE.(modRevision := 2), Some(ONE)))
  const TWO_PUT: Entry := Entry(3, Event(PutEvent, TWO, None))

  /** The objects under [1]. */
  function Ones(): WatchSpec {
    ResourceWatch([1], [2])
  }

  lemma LateLog()
    ensures WellFormed([ONE_PUT]) && Current([ONE_PUT]) == map[[1] := ONE]
    ensures WellFormed([ONE_PUT] + [ONE_DELETED]) && Current([ONE_PUT] + [ONE_DELETED]) == map[]
    ensures WellFormed([ONE_PUT] + [ONE_DELETED] + [TWO_PUT]) && Current([ONE_PUT] + [ONE_DELETED] + [TWO_PUT]) == map[[1, 1] := TWO]
  {
    var a, b, c := [ONE_PUT], [ONE_PUT] + [ONE_DELETED], [ONE_PUT] + [ONE_DELETED] + [TWO_PUT];
    assert a[..0] == [] && b[..1] == a && c[..2] == b;
    var one, two: Str := [1], [1, 1];
    assert |one| != |two|;
    assert Current([]) == map[] && History([], one) == [] && History([], two) == [];
    assert Current(a) == map[one := ONE] && History(a, one) == [RecordOf(ONE_PUT)] && History(a, two) == [];
    assert Current(b) == map[] && History(b, two) == [];
    assert WellFormed([]);
    assert a[|a| - 1] == ONE_PUT && WellFormed(a);
    assert b[|b| - 1] == ONE_DELETED && WellFormed(b);
    assert c[|c| - 1] == TWO_PUT;
  }

  lemma OnesConcern()
    ensures Concerns(Ones(), [1]) && Concerns(Ones(), [1, 1])
  {
    assert NamespacedKey([], [1]) == [1];
    assert !Less([1], [1]) && Less([1], [2]) && !Less([1, 1], [1]) && Less([1, 1], [2]);
  }

  /** An object is deleted while the informer watches nothing, and its revision is compacted away. The
      watch then opened hears only of a later object; with that one's version the informer never
      learns of the deletion, and goes on showing the object beside what is there. */
  lemma LateOpeningExample() returns (steps: seq<Step>, states: seq<Client>)
    ensures |states| == |steps| + 1 && Run(Ones(), states, steps) && Starts(states[0])
    ensures var s := states[|steps|];
            && s.open_ && s.at == |s.log| && s.cache.resourceVersion == Some(s.revision)
            && [1] in s.cache.objects && [1] !in Current(s.log)
            && !Mirrors(s.log, Ones(), s.cache, s.revision)
  {
    hide WellFormed, Current, Enabled, Apply, Run, Mirrors, Concerns;
    LateLog();
    OnesConcern();
    ListsOne(Early(HELD, 1, Cache(map[], None, [])), Early(HELD, 1, CACHED));
    DeliversTwo(Late(FULL, 3, CACHED, true, 2), Late(FULL, 3, BOTH, true, 3));
    LateOpens();
    LateGoesOn();
    steps := [List([ONE], []), Commit([ONE_DELETED], 2), Compact(2), OpenLate, Commit([TWO_PUT], 3), Deliver, End, Open];
    states := [Early(HELD, 1, Cache(map[], None, [])), Early(HELD, 1, CACHED), Early(EMPTIED, 2, CACHED),
               Early(EMPTIED, 2, CACHED).(compacted := 2), Late(EMPTIED, 2, CACHED, true, 2), Late(FULL, 3, CACHED, true, 2),
               Late(FULL, 3, BOTH, true, 3), Late(FULL, 3, BOTH, false, 3), Late(FULL, 3, BOTH, true, 3)];
    LateRun(steps, states);
    NotMirrored(Late(FULL, 3, BOTH, true, 3));
  }

  const HELD: Log := [ONE_PUT]
  const EMPTIED: Log := [ONE_PUT] + [ONE_DELETED]
  const FULL: Log := [ONE_PUT] + [ONE_DELETED] + [TWO_PUT]
  const CACHED: Cache := Cache(map[[1] := ONE], Some(1), [Added(ONE)])
  const BOTH: Cache := Cache(map[[1] := ONE, [1, 1] := TWO], Some(3), [Added(ONE), Added(TWO)])

  function Early(log: Log, revision: nat, cache: Cache): Client {
    Client(log, revision, 0, cache, false, 1, 1)
  }

  function Late(log: Log, revision: nat, cache: Cache, open_: bool, at: nat): Client {
    Client(log, revision, 2, cache, open_, at, at)
  }

  lemma LateOpens()
    requires WellFormed(EMPTIED)
    ensures var s := Early(HELD, 1, CACHED);
            Enabled(Ones(), s, Commit([ONE_DELETED], 2)) && Apply(Ones(), s, Commit([ONE_DELETED], 2)) == Early(EMPTIED, 2, CACHED)
    ensures var s := Early(EMPTIED, 2, CACHED); Enabled(Ones(), s, Compact(2)) && Apply(Ones(), s, Compact(2)) == s.(compacted := 2)
    ensures var s := Early(EMPTIED, 2, CACHED).(compacted := 2);
            Enabled(Ones(), s, OpenLate) && Apply(Ones(), s, OpenLate) == Late(EMPTIED, 2, CACHED, true, 2)
  {
    hide WellFormed;
  }

  lemma LateGoesOn()
    requires WellFormed(FULL)
    ensures var s := Late(EMPTIED, 2, CACHED, true, 2);
            Enabled(Ones(), s, Commit([TWO_PUT], 3)) && Apply(Ones(), s, Commit([TWO_PUT], 3)) == Late(FULL, 3, CACHED, true, 2)
    ensures var s := Late(FULL, 3, BOTH, true, 3); Enabled(Ones(), s, End) && Apply(Ones(), s, End) == Late(FULL, 3, BOTH, false, 3)
    ensures var s := Late(FULL, 3, BOTH, false, 3); Enabled(Ones(), s, Open) && Apply(Ones(), s, Open) == Late(FULL, 3, BOTH, true, 3)
  {
    hide WellFormed;
    assert After(FULL, 3) == 3;
  }

  lemma NotMirrored(s: Client)
    requires [1] in s.cache.objects && [1] !in Current(s.log) && WellFormed(s.log)
    requires forall i :: 0 <= i < |s.log| ==> s.log[i].revision <= s.revision
    ensures !Mirrors(s.log, Ones(), s.cache, s.revision)
  {
    SnapshotOfAll(s.log, s.revision);
  }

  lemma LateRun(steps: seq<Step>, states: seq<Client>)
    requires |steps| == 8 && |states| == 9
    requires forall i :: i in {0, 1, 2, 3, 4, 5, 6, 7} ==> Enabled(Ones(), states[i], steps[i]) && states[i + 1] == Apply(Ones(), states[i], steps[i])
    ensures Run(Ones(), states, steps)
  {
    hide Enabled, Apply;
    forall i | 0 <= i < |steps|
      ensures Enabled(Ones(), states[i], steps[i]) && states[i + 1] == Apply(Ones(), states[i], steps[i])
    {
      assert i in {0, 1, 2, 3, 4, 5, 6, 7};
    }
  }

  lemma ListsOne(s: Client, t: Client)
    requires s == Client([ONE_PUT], 1, 0, Cache(map[], None, []), false, 1, 1)
    requires t == Client([ONE_PUT], 1, 0, Cache(map[[1] := ONE], Some(1), [Added(ONE)]), false, 1, 1)
    requires Current([ONE_PUT]) == map[[1] := ONE] && Concerns(Ones(), [1])
    ensures Enabled(Ones(), s, List([ONE], [])) && Apply(Ones(), s, List([ONE], [])) == t
  {
    hide Current, Concerns;
    assert [ONE][0].key == [1];
    assert Listed([ONE], [1]);
    assert [ONE][..0] == [] && [] + [Added(ONE)] == [Added(ONE)];
    assert AddAll(s.cache, []) == s.cache && RemoveAll(s.cache, []) == s.cache;
    assert AddAll(s.cache, [ONE]) == AddOrUpdate(s.cache, ONE);
  }

  lemma DeliversTwo(s: Client, t: Client)
    requires s == Client([ONE_PUT] + [ONE_DELETED] + [TWO_PUT], 3, 2, Cache(map[[1] := ONE], Some(1), [Added(ONE)]), true, 2, 2)
    requires t == Client(s.log, 3, 2, Cache(map[[1] := ONE, [1, 1] := TWO], Some(3), [Added(ONE), Added(TWO)]), true, 3, 3)
    requires Concerns(Ones(), [1, 1])
    ensures Enabled(Ones(), s, Deliver) && Apply(Ones(), s, Deliver) == t
  {
    ShownAsIs([1], [2], TWO_PUT.event);
    assert s.log[2] == TWO_PUT;
    assert [Added(ONE)] + [Added(TWO)] == [Added(ONE), Added(TWO)];
  }

  // ----- exactly which initial events lag -----

  /** After initial events the cache mirrors the store at its own resource version if and only if
      there were none, or the last of them has the highest revision of all and nothing that was live
      at that revision has been deleted since. */
  lemma InitialEventsExactly(w: WatchSpec, s: Client, items: seq<Stored>)
    requires Steady(s) && Enabled(w, s, OpenWithInitialEvents(items)) && w.filters == {}
    ensures var c := HandleAll(s.cache, Puts(items));
            && Mirrors(s.log, w, c, s.revision) && c.resourceVersion.Some?
            && (Mirrors(s.log, w, c, c.resourceVersion.value) <==> Newest(w, s, items))
  {
    var c := HandleAll(s.cache, Puts(items));
    InitialShows(w, s, items);
    ListingIsNow(w, s, items);
    ListedVersions(w, s, items);
    assert Placed(s);
    hide Sound, HandleAll, Puts, Told, IsListing, Mirrors, Lists;
    if items == [] {
      assert Mirrors(s.log, w, c, 0) by { EmptyListing(w, s, c); }
    } else {
      LagsExactly(s.log, w, c, items, s.revision, items[|items| - 1].modRevision);
    }
  }

  lemma EmptyListing(w: WatchSpec, s: Client, c: Cache)
    requires Steady(s) && Mirrors(s.log, w, c, s.revision) && Lists(s.log, w, s.revision, [])
    ensures Mirrors(s.log, w, c, 0)
  {
    hide Told, AllGenuine, ShownBetween;
    SnapshotIsPrefix(s.log, 0);
    AfterMeans(s.log, 0);
    if After(s.log, 0) > 0 {
      PositiveRevisions(s.log, 0);
    }
    assert forall k :: !Listed([], k);
    assert ViewAt(s.log, w, s.revision) == map[];
  }

  lemma LagsExactly(log: Log, w: WatchSpec, c: Cache, items: seq<Stored>, revision: nat, last: nat)
    requires WellFormed(log) && Mirrors(log, w, c, revision) && Lists(log, w, revision, items) && last <= revision && w.filters == {}
    ensures Mirrors(log, w, c, last) <==>
            && (forall i :: 0 <= i < |items| ==> items[i].modRevision <= last)
            && (forall key :: key in ViewAt(log, w, last) ==> Listed(items, key))
  {
    hide WellFormed, SnapshotAt, Concerns;
    if Mirrors(log, w, c, last) {
      forall i | 0 <= i < |items|
        ensures items[i].modRevision <= last
      {
        assert items[i].key in ViewAt(log, w, revision);
        SnapshotOlder(log, last, items[i].key);
      }
    } else if (forall i :: 0 <= i < |items| ==> items[i].modRevision <= last) && (forall key :: key in ViewAt(log, w, last) ==> Listed(items, key)) {
      forall key: Str
        ensures Lookup(c.objects, key) == if Concerns(w, key) then Lookup(SnapshotAt(log, last), key) else None
      {
        ShowsAt(log, w, c, revision, key);
        if Listed(items, key) {
          var i :| 0 <= i < |items| && items[i].key == key;
          OldVersionStays(log, revision, last, key);
        }
      }
      LookupsShow(log, w, c, last);
    }
  }

  /** An object that was last written by a revision is there at that revision. */
  lemma {:induction false} OldVersionStays(log: Log, revision: nat, earlier: nat, key: Str)
    requires WellFormed(log) && earlier <= revision && key in SnapshotAt(log, revision) && SnapshotAt(log, revision)[key].modRevision <= earlier
    ensures Lookup(SnapshotAt(log, earlier), key) == Some(SnapshotAt(log, revision)[key])
  {
    var init, last := log[..|log| - 1], log[|log| - 1];
    RevisionsBounded(log);
    RevisionsCarried(log);
    if last.revision <= revision && last.Key() == key {
    } else {
      OldVersionStays(init, revision, earlier, key);
    }
  }

  // ----- over the running store -----

  /** The store, its watcher and the informer together: a cache in step, fed everything that its
      watcher has been delivered by the store so far, is in step with the store as it is now. */
  lemma StoreKeepsStep(etcd: Etcd.FakeState, watcher: Etcd.WatcherImpl, prefix: Str, rangeEnd: Str, c: Cache, at: nat)
    requires etcd.Valid() && watcher in etcd.watchers && watcher.connected && watcher.spec == ResourceWatch(prefix, rangeEnd)
    requires Synced(etcd.log, watcher.spec, c, at) && at <= watcher.connectedAt
    requires watcher.startRevision == Some(c.resourceVersion.value + 1)
    requires watcher.compactedAt <= c.resourceVersion.value
    requires forall r: nat :: watcher.connectedAt < r <= etcd.revision && r in etcd.lost ==> Watches.Shows(watcher.spec, At(etcd.log, r)) == []
    ensures Synced(etcd.log, watcher.spec, HandleAll(c, Flatten(watcher.delivered)), etcd.revision)
  {
    hide Etcd.FakeState.Valid, Mirrors, Quiet;
    ConnectedBefore(etcd, watcher);
    var start := c.resourceVersion.value + 1;
    etcd.WatcherHeard(watcher, start);
    assert watcher.delivered == Owed(watcher.spec, etcd.log, start, etcd.revision);
    SoundLog(etcd);
    HeardIsStream(watcher.spec, etcd.log, start, etcd.revision);
    WatchKeepsStep(etcd.log, prefix, rangeEnd, c, at, etcd.revision);
  }

  lemma ConnectedBefore(etcd: Etcd.FakeState, watcher: Etcd.WatcherImpl)
    requires etcd.Valid() && watcher in etcd.watchers && watcher.connected
    ensures watcher.connectedAt <= etcd.revision
  {
    hide Etcd.FakeState.StoreOk;
    assert watcher.Sound(etcd.log, etcd.lost, etcd.revision);
  }

  lemma SoundLog(etcd: Etcd.FakeState)
    requires etcd.Valid()
    ensures WellFormed(etcd.log)
  {
    hide Etcd.FakeState.WatchersSound;
    etcd.StoreIsOk();
  }
}
