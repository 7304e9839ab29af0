# Verification of the Webernetes core

Webernetes runs part of Kubernetes in the browser: a deterministic, in-memory cluster with a
revisioned key/value store, object stores and informers on top of it, service allocation, kubelet
pod workers, Go-like channels, a simulated clock and a deployment controller. This project models
that logic in Dafny and proves what it is for. `dafny verify dfyconfig.toml` checks everything.

| files | what they hold |
|---|---|
| `Text`, `KeyRange`, `SortedMaps` | UTF-16 texts and their order, prefix and namespace ranges, the sorted map |
| `Mvcc`, `EtcdSpec`, `EtcdProofs`, `Watches`, `Etcd` | the store: an event log as its meaning, requests over it, the fast structures as a class, reads, compaction, watchers |
| `RangeAnswers`, `RequestAnswers` | what the answers of the store say, and in which order |
| `Stores`, `Informer`, `Mirror` | compare-and-swap on objects; list-and-watch caches, and what they show throughout their life |
| `Locks`, `KeepAlive`, `HeldLocks` | leased locks, the timers that keep them, and both together |
| `Allocatable`, `Cidr`, `ServiceAllocation` | the bitmap allocator, addresses as indices, allocation around a compare-and-swap |
| `Clocks`, `Channels`, `Runtime` | simulated time; channels with select, as a specification and as the objects that change |
| `PodWorkers`, `PodWorkerUpdates`, `PodWorkerRuns`, `PodWorkerInserts`, `KubeletWorkers` | the life of a pod, as steps, what each step does, over whole runs, after every insertion of a record, and as the object that changes |
| `Ip`, `IpGrammar`, `Apply`, `RollingUpdate` | address texts and their grammar, three-way apply, rolling updates and scaling |

Every class keeps its fields in step with a value (its `View`) on which the properties are proved:
each method's contract says how the value changes, and the lemmas speak of the value over all runs.
The store is tied to one flat log of events. A history, a batch, a retained suffix, a snapshot and a
delivery are all functions of that log, and the methods that walk sorted maps are proved against them.

Several promises turn out to need a condition. Each is stated as an equivalence, with a concrete
case where it fails: a prefix or a listed namespace that ends in a surrogate pair, a read in the gap
left by trimming, a watch that starts beyond the next revision or misses a transaction refused
midway, initial events that do not end with the newest object, an informer's watch that is opened
below the watermark, a select that both sends and receives on one channel, a step that leaves a
microtask, a service that names an address that its type may not have, a live object that drifted,
an applied field with an inherited name. A pod record may be inserted while workers of earlier ones
are still there: exactly which of them lead to two workers at once, to the end of the pod before its
time or to a stranded update is said for each.
The floor of a rolling update under statuses that have not caught up is a bound: it is proved for all
statuses, with the stale pods taken off it, and attained for every stale amount up to the floor.

Where the code does less than it sets out to do, the model follows the code: compaction deletes from
the list that it is walking, so it is proved only to keep everything above the watermark; the
watermark of a trim is the removed record's revision; a watch opened below the watermark ends with an
error that the informer does not take for the loss of its version, so that it never lists again; a
grace period can grow when a pod asks for zero seconds; a pod record can be inserted while a worker of
an earlier one still holds a token.

## Model

| member | source | states |
|---|---|---|
| `KeyRange.ComputePrefixRangeEnd` | src/cluster/etcd.ts:2228-2244 | the backward loop over the code points of a prefix computes the end of its range: the last code point below 0xFFFF incremented, what follows it dropped, and the zero key when there is none |
| `KeyRange.PrefixRangeSound` | src/cluster/etcd.ts:2228-2244 | when the increment does not fall on a surrogate pair, a key lies in the range of a prefix if and only if it starts with the prefix |
| `KeyRange.PairEscapes` | src/cluster/etcd.ts:2228-2244 | when it does, some key in the range does not start with the prefix |
| `KeyRange.PrefixRangeExact` | src/cluster/etcd.ts:2228-2244 | for every prefix, its range is exactly the keys that start with it if and only if the increment does not fall on a surrogate pair |
| `KeyRange.NamespaceTransparent` | src/cluster/etcd.ts:2041-2057 | a namespaced range holds ns+k exactly when the plain range holds k |
| `KeyRange.NamespaceContained` | src/cluster/etcd.ts:2041-2057 | every key of a namespaced range starts with the namespace if and only if the range is not open-ended or the end of the namespace does not fall on a surrogate pair |
| `KeyRange.DisjointRanges` | src/cluster/etcd.ts:2090-2098 | two write ranges that the overlap test accepts together have no key in common |
| `SortedMaps.SortedMap.LowerBound` | src/collections.ts:89-108 | the binary search finds the first entry that is not below the key |
| `SortedMaps.SortedMap.Get` | src/collections.ts:35-42 | looks a key up in the finite map that the sorted entries stand for |
| `SortedMaps.SortedMap.Set` | src/collections.ts:23-33 | the map afterwards is the old one with the key set, and the entries are still sorted |
| `SortedMaps.SortedMap.Delete` | src/collections.ts:44-53 | removes exactly the key and moves every later entry one place forward |
| `SortedMaps.ItemsDetermined` | src/collections.ts:63-65 | a sorted entry list is determined by the map that it stands for, so two maps with equal contents iterate alike |
| `Mvcc.FindRevisionAtOrBefore` | src/cluster/etcd.ts:2163-2187 | the binary search over a history returns its last record at or before a revision |
| `Mvcc.FindAtUnique` | src/cluster/etcd.ts:2163-2187 | there is one last record at or before a revision of an increasing history |
| `Mvcc.HistoryIncreasing` | src/cluster/etcd.ts:802-829 | the records of a key have strictly increasing revisions in every well-formed log |
| `Mvcc.LiveMatchesHistory` | src/cluster/etcd.ts:711-762 | the live value of a key is that of its last record; its version counts the puts since the last delete and its create revision is the first of them |
| `Mvcc.SnapshotIsHistory` | src/cluster/etcd.ts:2163-2187 | the snapshot of the event log at a revision is what every full history resolves to there |
| `Mvcc.KeepReadsExact` | src/cluster/etcd.ts:802-829 | reading only the retained records gives the true value at a revision above the watermark if and only if the revision is outside the trim gap |
| `Etcd.TrimRevisions` | src/cluster/etcd.ts:821-826 | the trimming loop keeps the newest records up to the retention and raises the watermark to each dropped revision |
| `Etcd.FakeState.AppendRevision` | src/cluster/etcd.ts:802-829 | adds one event to the batch of its revision and one record to its history, trimmed to the retention; both structures still agree with the log |
| `Etcd.FakeState.CurrentValue` | src/cluster/etcd.ts:2149-2161 | the live value of a key, read from its retained records, is that of the whole log |
| `Etcd.FakeState.ApplyPutAtRevision` | src/cluster/etcd.ts:711-762 | a put at a revision: version, create revision and previous value as the log says, or the error for an empty or missing key |
| `Etcd.FakeState.ApplyDeleteAtRevision` | src/cluster/etcd.ts:764-800 | deletes every collected value at one revision and reports their number and previous values |
| `Etcd.FakeState.CollectDeleted` | src/cluster/etcd.ts:695-709 | the live values of a range in key order, found by walking retained histories, are those of the log |
| `Etcd.FakeState.EntriesInRange` | src/cluster/etcd.ts:2100-2112 | the walk from the lower bound to the first key outside yields every entry of the range, in order |
| `Etcd.FakeState.Range` | src/cluster/etcd.ts:398-445 | a read by walking the retained histories returns the matches of the specification sorted, truncated and counted, or its error |
| `Etcd.FakeState.OrderedMatches` | src/cluster/etcd.ts:398-445 | the sorted map filled from the visible histories holds exactly the matches under their sort keys |
| `Etcd.EarlyEventExample` | src/cluster/etcd.ts:528-538 | a concrete watch that asks for a start beyond the next revision and hears an event before it |
| `Etcd.LostEventExample` | src/cluster/etcd.ts:494-518 | a concrete transaction that is refused midway: what it wrote first is live, and no watcher hears of it |
| `Etcd.FakeState.Put` | src/cluster/etcd.ts:447-452 | a put changes the log as specified and tells every connected watcher exactly what it is owed |
| `Etcd.FakeState.Delete` | src/cluster/etcd.ts:454-463 | a delete takes a revision only if a key is deleted, and tells every watcher exactly what it is owed |
| `Etcd.FakeState.EvaluateCompare` | src/cluster/etcd.ts:837-878 | a clause holds when the live value of its key in the log compares as asked; a missing key counts as zero |
| `Etcd.CheckWriteRanges` | src/cluster/etcd.ts:880-905 | the pairwise test accepts exactly the operation lists whose write ranges do not overlap |
| `Etcd.FakeState.RunTxnOps` | src/cluster/etcd.ts:465-519 | the operations run in order up to the first that is refused, all at the revision of the transaction |
| `Etcd.FakeState.Txn` | src/cluster/etcd.ts:465-519 | a whole transaction does what the specification says to the log and the answer, and leaves every watcher sound |
| `Etcd.FakeState.Compact` | src/cluster/etcd.ts:663-675 | raises the watermark and loses no batch above it, although it deletes from the list that it walks |
| `Etcd.WatcherImpl.HandleMany` | src/cluster/etcd.ts:1927-1980 | delivers at most one response per revision, holding exactly the wanted events in order, and none once ended |
| `Etcd.FakeState.Watch` | src/cluster/etcd.ts:521-555 | registers a watcher that hears nothing before it connects; an empty key is refused |
| `Etcd.FakeState.ConnectWatcher` | src/cluster/etcd.ts:528-555 | connects and replays: the watcher has then been delivered exactly what it is owed so far, unless its start revision is at or below the watermark, which is reported |
| `Etcd.FakeState.Replay` | src/cluster/etcd.ts:540-555 | replaying the retained batches from the start revision delivers exactly the owed responses, the same as live ones |
| `Etcd.FakeState.Publish` | src/cluster/etcd.ts:831-835 | telling all watchers of the events of the current revision leaves every one of them sound |
| `Etcd.FakeState.CancelWatcher` | src/cluster/etcd.ts:557-568 | an ended watcher is detached and told of nothing more; the others stay sound |
| `Etcd.FakeState.WatcherHeard` | src/cluster/etcd.ts:521-555 | in every state between requests, a connected watcher has been delivered exactly the wanted log events from its start revision on if and only if nothing wanted fell between its connection and a later start, and none was lost by a refused transaction |
| `Etcd.FakeState.LateWatcherHeard` | src/cluster/etcd.ts:528-546 | a watcher whose start was compacted away before it connected has heard nothing from before its connection, and from then on exactly what it wanted if and only if no refused transaction lost any of it |
| `Etcd.FakeState.FailWatcher` | src/cluster/etcd.ts:538-546 | such a watcher is detached and hears nothing more; the others stay sound |
| `Watches.DeliveriesStable` | src/cluster/etcd.ts:802-835 | what is delivered up to a revision does not depend on what happens later |
| `Watches.WantedMeans` | src/cluster/etcd.ts:1927-1942 | a watcher of a namespace hears of a key of it exactly when the key without the namespace is in the range that it asked for and the kind of event is not filtered out |
| `Watches.ShownMeans` | src/cluster/etcd.ts:1944-1957 | it is told of the key without the namespace, of all else as it is in the log, and of the value before if and only if it asked for that |
| `Watches.DeliveriesCarry` | src/cluster/etcd.ts:1927-1980 | the events delivered are exactly the wanted log events of the covered revisions, in log order, each once |
| `Watches.DeliveriesBatches` | src/cluster/etcd.ts:1927-1980 | there is one response per covered revision with a wanted event, in increasing order of revision |
| `Watches.ExactlyOnce` | src/cluster/etcd.ts:521-555 | deliveries equal what was asked for if and only if nothing wanted happened between connection and a later start, and nothing wanted was lost; a start of at most the next revision makes the first condition void |
| `EtcdProofs.RunOpsKeepsOk` | src/cluster/etcd.ts:465-519 | an accepted transaction touches only its write ranges, and no key twice |
| `EtcdProofs.PutKeepsOk` | src/cluster/etcd.ts:447-452 | a put keeps the log well-formed and trimmed histories exact above the watermark |
| `EtcdProofs.DeleteKeepsOk` | src/cluster/etcd.ts:454-463 | a delete keeps the store sound and removes exactly the live keys of its range |
| `EtcdProofs.TxnKeepsOk` | src/cluster/etcd.ts:465-519 | a transaction keeps the store sound, also when it is refused midway |
| `EtcdProofs.CompactKeepsOk` | src/cluster/etcd.ts:663-675 | compaction keeps the store sound |
| `EtcdProofs.SnapshotReadExact` | src/cluster/etcd.ts:907-922 | a read of one key at an available revision shows the true snapshot if and only if the revision is not in the trim gap of the key |
| `EtcdProofs.CurrentReadExact` | src/cluster/etcd.ts:907-922 | a read at the current revision is exact for every key |
| `EtcdProofs.TrimGapExists` | src/cluster/etcd.ts:821-826 | a concrete store in which a key that was live at an available revision reads as absent there |
| `EtcdProofs.RangeShowsSnapshot` | src/cluster/etcd.ts:398-445 | a range read returns the true snapshot of its range if and only if no value that it asks for lies in a trim gap |
| `EtcdProofs.CurrentRangeExact` | src/cluster/etcd.ts:398-445 | a range read with no revision is exact for its whole range |
| `EtcdProofs.SameRevisionSameVersion` | src/cluster/storage/store.ts:211-268 | an unchanged modification revision means that nothing has written the key since |
| `EtcdProofs.NoLostUpdate` | src/cluster/storage/store.ts:246-254 | an update commits if and only if the key still holds the version that was read, which it then replaces; otherwise the store is unchanged |
| `EtcdProofs.NoLostDelete` | src/cluster/storage/store.ts:270-291 | a delete commits if and only if the key still holds the version that was read, which it then removes |
| `RangeAnswers.AllMatchesExactly` | src/cluster/etcd.ts:398-445 | the stored values behind the answer of a range read are exactly those of its range that are visible at its revision and within its bounds, each once, in the order asked for: by the field named, ascending or descending, and equal fields by ascending key |
| `RangeAnswers.RangeAnswers` | src/cluster/etcd.ts:398-445 | every range read is refused for an empty key, a revision to come or one compacted away; otherwise it lists the first of those values, as many as its limit allows, or none if only their number is asked for, says how many they are and whether there are more, and shows each as its namespace does, without the value if only keys are asked for |
| `RangeAnswers.RangeInOrder` | src/cluster/etcd.ts:2189-2215 | the keys and values shown are in that order too, as long as the request cannot leave its namespace and does not order by values that it leaves out |
| `RangeAnswers.ListingOutOfOrder` | src/cluster/etcd.ts:2130-2140 | for every namespace that ends in a surrogate pair, a store whose open-ended listing by key is not in order |
| `RangeAnswers.AskedNow` | src/cluster/etcd.ts:398-445 | a read at the current revision lists exactly the live values of its range within its bounds |
| `RequestAnswers.PutAnswers` | src/cluster/etcd.ts:711-762 | every put takes a revision; it is refused for an empty key or to keep the value of a missing one, and otherwise leaves exactly one new version of its key, with the value, version and create revision that follow from the one before, and shows that one if asked to |
| `RequestAnswers.DeleteAnswers` | src/cluster/etcd.ts:764-800 | a delete removes exactly the live values of its range, tells how many they were and, if asked, shows them in key order, and takes a revision only if there are any |
| `RequestAnswers.ClauseOnNumber` | src/cluster/etcd.ts:837-878 | a clause on a version, a create or a modification revision compares that of the live value, or 0 if there is none, as numbers |
| `RequestAnswers.ClauseOnValue` | src/cluster/etcd.ts:837-878 | a clause on a value compares the live one, or an empty one, in the order of texts |
| `RequestAnswers.TxnAnswers` | src/cluster/etcd.ts:465-519 | an accepted transaction runs the operations chosen by whether all its clauses hold, at one new revision if any of them writes and changing nothing otherwise, and answers each in its place, on what those before it left |
| `RequestAnswers.CompactAnswers` | src/cluster/etcd.ts:663-675 | a compaction moves the watermark to the revision named, or to the current one, never back, and is refused exactly for a revision to come |
| `Stores.ServeAllExtends` | src/cluster/etcd.ts:447-519 | any sequence of puts, deletes, transactions and compactions only adds to the log and keeps the store sound |
| `Stores.UpdateReplacesWhatItRead` | src/cluster/storage/store.ts:211-268 | whatever requests run between read and write, an update replaces exactly the object that it read, or writes nothing |
| `Stores.DeleteRemovesWhatItRead` | src/cluster/storage/store.ts:270-291 | whatever requests run between read and write, a round of a delete removes exactly the object that it read, or nothing |
| `Stores.CreateExactly` | src/cluster/storage/store.ts:193-199 | a create commits if and only if the key is absent at its commit, and is then the first version of the object |
| `Stores.GetReadsCurrent` | src/cluster/storage/store.ts:119-134 | the range read behind a get shows exactly the live value of its one key |
| `Stores.Store.ReadStored` | src/cluster/storage/store.ts:119-134 | reads the live object of a key through the store |
| `Stores.Store.CommitCreate` | src/cluster/storage/store.ts:193-205 | the final transaction of a create: refused if the object exists, else the new first version and its revision |
| `Stores.Store.BeginUpdate` | src/cluster/storage/store.ts:227-236 | not found, a conflict with the given resource version, or the object that will be replaced |
| `Stores.Store.CommitUpdate` | src/cluster/storage/store.ts:246-264 | the final transaction of an update: a conflict that changes nothing unless the object read is still there |
| `Stores.Store.CommitDelete` | src/cluster/storage/store.ts:272-290 | one round of a delete: it removes the object read, or reports that it must be tried again |
| `Locks.AcquireExactly` | src/cluster/etcd.ts:588-629 | acquiring succeeds if and only if the lock key does not exist; a refusal changes nothing in the store |
| `Locks.RevokeExactly` | src/cluster/etcd.ts:631-642 | ending a lease deletes its key and no other |
| `Locks.ElsewhereLeaves` | src/cluster/etcd.ts:447-519 | a put, delete, transaction or compaction that may not write a key leaves it present, or absent |
| `Locks.StepKeeps` | src/cluster/etcd.ts:588-642 | each step keeps at most one lease per lock key, and the key present exactly when one exists |
| `Locks.MutualExclusion` | src/cluster/etcd.ts:588-661 | in every state of every run in which the requests of others, of whatever kind, write no lock key, a lock is held by at most one lease and its key exists exactly while it is |
| `Locks.Leases.AcquireLock` | src/cluster/etcd.ts:588-629 | creates the lock key with a lease on it if and only if the key does not exist, over the running store; the lease number is used up either way |
| `Locks.Leases.RevokeLease` | src/cluster/etcd.ts:631-642 | over the running store, ends a lease that is still there, deletes its key if that is, and no other; an unknown lease changes nothing |
| `KeepAlive.GrantArms` | src/cluster/etcd.ts:963-1007 | a new lease of at least one second has its refresh due before its expiry |
| `KeepAlive.EveryIsThird` | src/cluster/etcd.ts:999-1007 | a lease is refreshed every third of its TTL, in whole milliseconds, and at most every millisecond |
| `KeepAlive.RefreshPutsOff` | src/cluster/etcd.ts:652-661 | a refresh replaces the expiry timer by one due a whole TTL later |
| `KeepAlive.NextKeeps` | src/clock.ts:80-136 | every move of the stepping clock keeps the refresh ahead of the expiry |
| `KeepAlive.NeverExpires` | src/cluster/etcd.ts:963-1007 | for every TTL of at least one second, a lease that is neither revoked nor released never runs its expiry, over every run of clock moves and of other callbacks |
| `KeepAlive.ReleasedExpires` | src/cluster/etcd.ts:644-650 | a lease whose refreshes were called off does expire, at the very time that was last set |
| `HeldLocks.KeptLockIsHeld` | src/cluster/etcd.ts:588-661 | along every run of clock moves, callbacks, lock operations and requests of others, the lock of a lease of at least one second that nobody revokes or releases stays held: its key is there and no other lease holds it |
| `Informer.ListWatch.AddOrUpdateObject` | src/client/cache.ts:330-361 | afterwards the very version of the object is cached and every other key is as it was; listeners hear of it once, only when that version was not cached; folding the calls still gives the cache |
| `Informer.ListWatch.DeleteObject` | src/client/cache.ts:363-387 | afterwards the key is gone and every other one is as it was; listeners hear of it exactly when it was there; folding the calls still gives the cache |
| `Informer.ListWatch.WatchHandler` | src/client/cache.ts:243-273 | afterwards the key of the event is as the event says and every other one as it was; the resource version follows whenever the cache has changed, and stays only when that version was already there; folding the calls still gives the cache |
| `Informer.ListWatch.Relist` | src/client/cache.ts:172-226 | after a listing, at any revision, the cache is the resource as listed and folding the calls gives it; it is then in step with its own resource version, or empty at revision 0 |
| `Informer.SameVersionSameObject` | src/client/cache.ts:389-395 | two objects of one key with one resource version, both from the log, are equal |
| `Informer.HandleKeepsTold` | src/client/cache.ts:330-387 | folding the add, update and delete calls made so far gives the cache, after every event; an object is added only when it was not there, updated only to another version, and removed only when it was there |
| `Informer.CallOfEvent` | src/client/cache.ts:330-387 | an event causes one call if it changes the cache and none if not, and the call hands over the object of the event |
| `Informer.EventsCatchUp` | src/client/cache.ts:243-273 | after a stream of events that are all news, the keys that they touch are as in the snapshot at the end of the stream, and the others as before |
| `Informer.WatchCatchesUp` | src/client/watch.ts:123-189 | a watch that starts no later than where the cache stands brings it to any later revision, even if it repeats events |
| `Informer.ListShows` | src/client/cache.ts:296-328 | after a listing the cache is exactly the snapshot of the resource at the listed revision |
| `Informer.MirrorsItsVersion` | src/client/cache.ts:172-273 | a cache that shows the resource at a later revision and has missed nothing since its own version equals the snapshot at that version |
| `Informer.WatchKeepsStep` | src/client/cache.ts:243-273 | a cache in step that is fed whole revisions of what its watch delivers from its resource version on is in step at the later revision |
| `Informer.HeardIsStream` | src/client/watch.ts:123-189 | what an undisturbed watcher of the store has heard is the stream that the informer is fed |
| `Informer.InitialEventsLag` | src/client/watch.ts:192-214 | a concrete listing at revision 0 that the watch repeats as initial events and that leaves a resource version behind what the cache shows |
| `Mirror.StepKeeps` | src/client/cache.ts:172-273 | a step keeps the informer sound unless it opens a watch too late and misses something: a commit or compaction of the store, a listing, the opening of a watch with or without initial events, one delivered event, the end of a watch, and a report that its version is gone |
| `Mirror.EveryState` | src/client/cache.ts:172-273 | in every state of every run whose late openings miss nothing, through any number of lost and reopened watches, folding the calls gives the cache, and every object is shown as it stood at some point between the place of the watch and the furthest one reached; a watch that has got there shows the resource exactly |
| `Mirror.SteadyInEveryState` | src/client/cache.ts:172-273 | in every state of every run, however late its watches are opened, folding the calls gives the cache, which holds only objects that the store has held, and the resource version is never ahead of the watch |
| `Mirror.LateOpeningExactly` | src/cluster/etcd.ts:528-546 | a watch that is opened at or below the watermark, where nothing is replayed, leaves the informer sound if and only if it misses nothing: each entry since the last watch is reflected in the cache, or is of an object neither cached nor there any more |
| `Mirror.LateOpeningExample` | src/client/cache.ts:172-226 | a concrete run: an object is deleted and its revision compacted away while no watch is open; the late watch hears only of a later object, and the informer, with the current resource version and no relisting, goes on showing what is gone |
| `Mirror.EventIsNews` | src/client/cache.ts:243-273 | an event that the watch comes to is newer than what a cache in step has of its key |
| `Mirror.MirrorsInEveryState` | src/client/cache.ts:172-273 | in every state of every run whose initial events end with the newest object and whose late openings miss nothing, and so after every single event, the cache is what the log shows at the place of the watch; between revisions it is the snapshot at its own resource version |
| `Mirror.InitialEventsExactly` | src/client/watch.ts:123-145 | after initial events the cache equals the snapshot at its own resource version if and only if there were none, or the last of them has the highest revision and nothing that was live at that revision has been deleted since |
| `Mirror.StoreKeepsStep` | src/cluster/etcd.ts:521-555 | a cache in step, fed all that the running store has delivered to its connected watcher, is in step with the store as it is now, if nothing wanted was lost by a refused transaction |
| `Allocatable.AllocatableRange.SetBit` | src/cluster/storage/allocatable.ts:107-116 | sets one bit in place: the set of taken indices changes by exactly that index |
| `Allocatable.AllocatableRange.Allocate` | src/cluster/storage/allocatable.ts:118-138 | takes the first free index from the cursor on, going round; fails if and only if every index is taken; the count of used indices stays exact |
| `Allocatable.AllocatableRange.Claim` | src/cluster/storage/allocatable.ts:140-152 | takes a given index, or refuses one that is out of bounds or taken |
| `Allocatable.AllocatableRange.Release` | src/cluster/storage/allocatable.ts:154-166 | frees a given index, or refuses one that is out of bounds or free |
| `Allocatable.EachIndexOnce` | src/cluster/storage/allocatable.ts:118-138 | from any state exactly as many allocations succeed as there are free indices, each with a new one |
| `Allocatable.ReusedLast` | src/cluster/storage/allocatable.ts:118-166 | an index allocated and then released is allocated next if and only if nothing else is free |
| `Allocatable.PortRange.Allocate` | src/cluster/storage/allocatable.ts:209-212 | the port is in its range and was free; fails if and only if every port is taken |
| `Allocatable.PortRange.Claim` | src/cluster/storage/allocatable.ts:214-226 | takes a given port of the range, or refuses it |
| `Cidr.IpToNumberLoop` | src/net.ts:112-133 | the loop over four parts reads a dotted address as a 32-bit number, or refuses it |
| `Cidr.NumberRoundTrip` | src/net.ts:112-137 | every number below 2^32 reads back from its dotted text |
| `Cidr.CanonicalExactly` | src/net.ts:112-137 | a part of digits is the printed form of its value if and only if it has no leading zero |
| `Cidr.BracketsComeOff` | src/net.ts:180-182 | brackets around a text are taken off, and nothing else |
| `Cidr.UsableExactly` | src/net.ts:44-80 | the usable addresses of a range are all of its addresses, but for the first and the last one if it has more than two |
| `Cidr.TextsHavePlaces` | src/cluster/storage/allocatable.ts:271-288 | the text of every usable address of a range stands for exactly its place in the range |
| `Cidr.PlacesAreInRange` | src/cluster/storage/allocatable.ts:281-293 | every usable text that reads as a number has a place in the range |
| `Cidr.RangesArePools` | src/cluster/storage/allocatable.ts:177-293 | the usable addresses of an IPv4 range with given bounds, and the ports of an interval, map one to one onto indices, as the allocation protocol needs |
| `ServiceAllocation.PreserveNodePorts` | src/cluster/storage/service.ts:190-212 | the loop takes an unset port over from the old port at the same place; the lookup by label and place never differs from the one by place |
| `ServiceAllocation.GivenFacts` | src/cluster/storage/service.ts:390-400 | what an update gives up is what the old service names and the new one does not, unless another text of the new one stands for an old address |
| `ServiceAllocation.TakeAddressKeeps` | src/cluster/storage/service.ts:214-242 | keeping, claiming or choosing the cluster address keeps every resource with exactly one holder |
| `ServiceAllocation.TakePortKeeps` | src/cluster/storage/service.ts:244-278 | keeping, claiming or choosing the next node port keeps every resource with exactly one holder |
| `ServiceAllocation.FailedKeeps` | src/cluster/storage/service.ts:110-161 | giving up after any number of allocations keeps every resource with exactly one holder |
| `ServiceAllocation.CommitExact` | src/cluster/storage/service.ts:110-165 | a successful write keeps the resources partitioned if and only if the service names no address that its type may not have and no node port twice |
| `ServiceAllocation.ReleaseKeeps` | src/cluster/storage/service.ts:346-357 | a release finds its resource allocated and frees what nobody else holds |
| `ServiceAllocation.StepKeeps` | src/cluster/storage/service.ts:110-278 | every step of interleaved creates, updates and deletes keeps the allocated resources partitioned among stored services and unfinished operations |
| `ServiceAllocation.RunsKeep` | src/cluster/storage/service.ts:110-278 | so in every state of every run whose writes are clean |
| `ServiceAllocation.NoSharing` | src/cluster/storage/service.ts:110-165 | no two stored services share an address or a node port |
| `ServiceAllocation.NothingLeaks` | src/cluster/storage/service.ts:110-165 | with no operation under way, exactly what stored services name is allocated |
| `ServiceAllocation.RunsEntitle` | src/cluster/storage/service.ts:27-36 | in every state of every run, whatever is written, each stored service and each one about to be stored has what its type calls for: a node port of the range for every port, or for none, and an address of the range unless it is external; allocation changes nothing that was given |
| `ServiceAllocation.PreservedMeans` | src/cluster/storage/service.ts:174-212 | an update keeps its own type, address and node ports where it names them, and takes over those of the service that it replaces where it does not, port by port at the same place; types that need none lose them |
| `ServiceAllocation.ClusterIPsMean` | src/cluster/storage/service.ts:366-377 | the addresses that a service names are its own and those of its list, each once, and never `None` |
| `ServiceAllocation.ReleasesSucceed` | src/cluster/storage/service.ts:346-357 | no release in a clean run meets a resource that is not allocated |
| `ServiceAllocation.SharingExample` | src/cluster/storage/service.ts:28-36 | a concrete run in which a service of a type that needs no address names one that another service holds |
| `ServiceAllocation.RepeatedPortExample` | src/cluster/storage/service.ts:190-212 | a concrete update, clean in itself and of a clean service, that names a node port twice once the old ports are taken over |
| `ServiceAllocation.SecondReleaseFails` | src/cluster/storage/service.ts:350-357 | releasing a resource twice fails the second time |
| `Clocks.Clock.SetTimeout` | src/clock.ts:138-150 | adds a one-shot timer under the next handle; a negative delay counts as zero |
| `Clocks.Clock.SetInterval` | src/clock.ts:152-168 | adds a repeating timer; a non-positive interval is refused |
| `Clocks.Clock.ClearTimeout` | src/clock.ts:175-185 | removes exactly the timers of a handle |
| `Clocks.Clock.NextDueTask` | src/clock.ts:294-309 | the scan finds the next due timer of the specification |
| `Clocks.NextDueMeaning` | src/clock.ts:294-309 | it is the due timer that comes first by due time, then by handle; there is none exactly when none is due |
| `Clocks.PerformQueues` | src/clock.ts:138-173 | a callback performs its actions in order, up to the first that raises an exception; its microtasks join the queue in order, and each timer that it sets takes the next handle |
| `Clocks.PerformTimers` | src/clock.ts:138-187 | afterwards the timers are exactly those that there were and those that it set, each due after its delay, but for the ones cleared since |
| `Clocks.RearmExactly` | src/clock.ts:113-120 | when its callback is done a timer is gone, or due one interval after it was if it repeats, and no other timer changes |
| `Clocks.FirstInFirstOut` | src/clock.ts:224-247 | microtasks run first in, first out: at every moment of a step, those that ran since it began, followed by those that wait, are those that waited when it began, followed by all that were queued since, in the order in which they were queued |
| `Clocks.Clock.FlushMicrotasks` | src/clock.ts:224-247 | runs queued microtasks until none is left or one throws |
| `Clocks.Clock.Step` | src/clock.ts:80-136 | the stepping loop ends where the moves of the specification end, with the same log, time and timers |
| `Clocks.StepInOrder` | src/clock.ts:80-136 | in every state of a step callbacks have run by due time, then handle, and time has never gone back |
| `Clocks.StepsComposeExactly` | src/clock.ts:80-136 | stepping in two parts is stepping at once if and only if no microtask is left when the timers of the first part are drained |
| `Clocks.TwoStepsDifferExample` | src/clock.ts:80-136 | a concrete callback that queues a microtask and throws: stepping in two parts runs it at the first target, stepping at once at the second |
| `Clocks.IdleStepsComposeExactly` | src/clock.ts:80-136 | where no timer is due in the first part, the two agree if and only if no microtask is queued before the call |
| `Clocks.StepAgainExactly` | src/clock.ts:80-136 | stepping again to the time that was reached runs nothing if and only if the first step left no microtask and no timer that is due |
| `Clocks.CleanStepsCompose` | src/clock.ts:80-136 | on a clock with no microtask queued and callbacks that never throw, the two always agree, and nothing due by the target is left |
| `Clocks.DueTimerRuns` | src/clock.ts:80-136 | a step that ends has run every timer due by its target that no callback cleared, at the time that it was due |
| `Clocks.MeasureDrops` | src/clock.ts:80-136 | with callbacks that schedule nothing, each move uses up an explicit measure |
| `Clocks.StepEnds` | src/clock.ts:80-136 | so that a step ends within that many moves |
| `Runtime.Channels.TrySend` | src/go/channel.ts:215-234 | keeps queues and ledgers sound; a value is accepted exactly when the channel is open and has a waiting receiver or room; the first receiver then gets it, or it is last in the buffer; a refused one changes nothing |
| `Runtime.Channels.TryReceive` | src/go/channel.ts:246-270 | keeps queues and ledgers sound; the value found is the oldest of the buffered and the blocked ones and is the next in the ledger of the received; the end is found exactly when the channel is closed and empty; a receive that finds nothing changes nothing |
| `Runtime.Channels.Send` | src/go/channel.ts:236-244 | rejected on a closed channel; else the first waiting receiver gets the value, or it is last in the buffer, and the send is settled; else it waits |
| `Runtime.Channels.Receive` | src/go/channel.ts:280-289 | told the oldest value that there is, buffered or blocked, or, if there is none and the channel is closed, its end; else it waits; the first blocked sender goes on |
| `Runtime.Channels.SettleOp` | src/go/channel.ts:147-169 | the first outcome settles an operation and takes all its cases out of every queue; a later one changes nothing |
| `Runtime.Channels.Block` | src/go/channel.ts:171-199 | registers a blocked operation with each of its cases, in order |
| `Runtime.Channels.Select` | src/go/channel.ts:112-200 | takes a ready case if there is one, else the default, else blocks on all cases; it keeps queues and ledgers sound unless it must wait on cases that may not block together; the caller is told the case, with the oldest value or the end of the channel for a receive, and nobody else hears of it but the one sender or receiver that goes on |
| `Runtime.Channels.Close` | src/go/channel.ts:295-316 | rejects the blocked senders and ends the waiting receivers, in order, and tells nobody else; a second close is refused; queues and ledgers stay sound |
| `Channels.SettleKeeps` | src/go/channel.ts:147-169 | settling leaves no entry of the operation in any queue and disturbs no other |
| `Channels.TrySendKeeps` | src/go/channel.ts:215-234 | a send keeps queues and ledgers sound, and is accepted exactly when the channel can take it |
| `Channels.TryReceiveKeeps` | src/go/channel.ts:246-270 | a receive keeps queues and ledgers sound, and takes the oldest value that there is |
| `Channels.SendKeeps` | src/go/channel.ts:236-244 | what a send is told, who gets its value, and that queues and ledgers stay sound |
| `Channels.ReceiveKeeps` | src/go/channel.ts:280-289 | what a receive is told, which sender goes on, and that queues and ledgers stay sound |
| `Channels.DrainMeets` | src/go/channel.ts:338-361 | a blocked sender that meets a waiting receiver hands over its value, and both settle |
| `Channels.BlockExact` | src/go/channel.ts:171-199 | blocking keeps the invariant if and only if the cases do not send on a closed channel, nor both send on and receive from one channel |
| `Channels.BothWaysExample` | src/go/channel.ts:112-200 | a concrete select that sends on and receives from one channel and waits in both of its queues |
| `Channels.SelectKeeps` | src/go/channel.ts:112-200 | a select keeps queues and ledgers sound, if its cases may block together or it need not wait; it is settled at once if and only if a case is ready or it has a default, by that case: a receive with the oldest value, or with the end of the channel only if there is none |
| `Channels.CloseKeeps` | src/go/channel.ts:295-316 | closing settles everything that waited on the channel, and nothing else: senders are rejected, receivers are told of the end by the case of their first entry, what is buffered stays |
| `Channels.DrainExact` | src/go/channel.ts:291-293 | draining a buffer keeps the invariant if and only if no sender is blocked on it, or the channel has no buffer |
| `Channels.RunsKeep` | src/go/channel.ts:98-368 | in every world of every proper run queues and ledgers are sound |
| `Channels.SettledIsGone` | src/go/channel.ts:112-200 | once settled, an operation is in no queue and no value is handed to it: it settles by one case at most |
| `Channels.FirstInFirstOut` | src/go/channel.ts:215-364 | received, buffered and blocked values make up, in this order, the offers not dropped; the buffer is within capacity, waiting receivers mean nothing to receive, waiting senders a full buffer |
| `Channels.NoLostWakeUp` | src/go/channel.ts:112-364 | no wake-up is lost: an operation that is still blocked has no case that could go on |
| `PodWorkers.CalculateEffectiveGracePeriod` | src/cluster/kubelet/pod-workers.ts:1132-1160 | the grace period and whether it was shortened, as specified |
| `PodWorkers.GraceGrowsExactly` | src/cluster/kubelet/pod-workers.ts:1132-1160 | a grace period already set stays at least 1, and grows if and only if the pod asks for zero and the kill request for more than is set |
| `PodWorkers.GraceMeans` | src/cluster/kubelet/pod-workers.ts:1132-1160 | the grace period is more than a bound exactly when all that is asked for and what is set are, except that a deletion at once gives way to a kill request, and that the setting of the pod counts when nothing is asked for or set; it is at least 1 |
| `PodWorkerUpdates.UpdateDoes` | src/cluster/kubelet/pod-workers.ts:285-496 | what every update does in every state: a record not yet asked to terminate afterwards is if and only if the update is runtime-only, its pod is deleted or has ended, or it kills; it is newly marked deleted in the first two cases and evicted when only an evicting kill asks; what is left pending, with which pod, kill request and grace; what is only noted or ignored |
| `PodWorkerUpdates.StartDoes` | src/cluster/kubelet/pod-workers.ts:512-577 | what a worker is handed: the clean-up, the termination or a full sync, by how far the pod has come, if the pod can be started; what is remembered as the last update |
| `PodWorkerUpdates.ReturnDoes` | src/cluster/kubelet/pod-workers.ts:691-812 | what the return of each kind of work brings about: the termination, the clean-up, the end of the record, or nothing |
| `PodWorkerUpdates.SweepDoes` | src/cluster/kubelet/pod-workers.ts:984-1026 | what the sweep does: a finished record goes, as does an orphaned one of which nothing ran; an orphaned one that runs is asked to terminate |
| `PodWorkers.GraceNeverGrows` | src/cluster/kubelet/pod-workers.ts:285-496 | over every step of every run, orderly or not, the grace period of a record stays at least 1 once set and grows only on such a request |
| `PodWorkers.RunsKeepGrace` | src/cluster/kubelet/pod-workers.ts:285-847 | in every state of every run, orderly or not, a grace period that is set is at least 1 and belongs to a terminating record |
| `KubeletWorkers.PodWorkersImpl.UpdatePod` | src/cluster/kubelet/pod-workers.ts:285-496 | the whole of an update: ignored, refused, or queued on a record that begins to terminate exactly when the update asks for it, with its worker made and woken; sound records stay sound unless a record is inserted too early |
| `KubeletWorkers.PodWorkersImpl.StartPodSync` | src/cluster/kubelet/pod-workers.ts:512-577 | keeps the pod sound; a worker that starts a sync has the pending update and the work that the flags of the record ask for, and no update is left pending |
| `KubeletWorkers.PodWorkersImpl.AcknowledgeTerminating` | src/cluster/kubelet/pod-workers.ts:771-790 | keeps the pod sound; afterwards the record of a pod that is asked to terminate says that its termination has begun |
| `PodWorkers.RequeueKeeps` | src/cluster/kubelet/pod-workers.ts:1029-1038 | queuing the active update again leaves a sound pod whose worker will come to it |
| `KubeletWorkers.PodWorkersImpl.SyncReturned` | src/cluster/kubelet/pod-workers.ts:691-718 | keeps the pod sound, whatever the work and the outcome; the worker leaves exactly at the end of its pod; a failed sync changes nothing but the phase, a successful one leaves the record finished, terminated or terminating by its work |
| `KubeletWorkers.PodWorkersImpl.CompleteWork` | src/cluster/kubelet/pod-workers.ts:837-847 | keeps the pod sound; the worker waits again, with a token if an update is pending, on an idle record otherwise |
| `KubeletWorkers.PodWorkersImpl.RemoveTerminatedWorker` | src/cluster/kubelet/pod-workers.ts:984-1017 | keeps the pod sound; removes a finished or never started record, and an orphaned one begins to terminate |
| `PodWorkers.StepKeepsOrder` | src/cluster/kubelet/pod-workers.ts:226-234 | no step takes back work that was handed out or lets it go backwards |
| `PodWorkers.RunsKeepOrder` | src/cluster/kubelet/pod-workers.ts:512-577 | in every state of every run the work handed out for a record is a word of SyncPod* TerminatingPod* TerminatedPod* |
| `PodWorkers.StepKeeps` | src/cluster/kubelet/pod-workers.ts:285-847 | every orderly step keeps record, channel and workers sound; a step is orderly unless it inserts a record too early |
| `PodWorkers.RunsKeep` | src/cluster/kubelet/pod-workers.ts:285-847 | so in every state of every orderly run |
| `PodWorkers.OneWorker` | src/cluster/kubelet/pod-workers.ts:580-718 | in a sound state, at most one worker of a record is past its receive |
| `PodWorkerRuns.StepWired` | src/cluster/kubelet/pod-workers.ts:285-847 | every step from every reachable state keeps at most the newest channel open, and open exactly while there is an unfinished record |
| `PodWorkerInserts.InsertExact` | src/cluster/kubelet/pod-workers.ts:321-369 | for every reachable pod without a record: no two workers will ever sync at once in the life of the inserted record if and only if every earlier worker has left, or waits or completes with no token in its channel |
| `PodWorkerInserts.NoisyInsert` | src/cluster/kubelet/pod-workers.ts:321-369 | otherwise there is a continuation, in the life of that record, that ends with two workers syncing |
| `PodWorkerInserts.PrematureExactly` | src/cluster/kubelet/pod-workers.ts:740-752 | for every reachable pod without a record: TerminatedPod will never be handed out in the life of the inserted record before a terminating sync of that record returned without an error if and only if the record is created terminated, or no worker still runs a terminating sync of another record that can succeed |
| `PodWorkerInserts.StrandsExactly` | src/cluster/kubelet/pod-workers.ts:512-577 | for every reachable pod without a record: no update will ever be pending, in the life of the inserted record, behind an open channel whose worker will not come to it, if and only if the first update carries a pod, or no worker still runs such a terminating sync |
| `PodWorkerInserts.NeverTwoAlways` | src/cluster/kubelet/pod-workers.ts:580-718 | in every state of every run whose insertions meet the first of these conditions, at most one worker syncs |
| `PodWorkerInserts.NeverPrematureAlways` | src/cluster/kubelet/pod-workers.ts:740-752 | in every state of every run whose insertions meet the second, TerminatedPod was handed out only after a terminating sync of that very record, or the record was created terminated |
| `PodWorkerInserts.NeverStrandedAlways` | src/cluster/kubelet/pod-workers.ts:431-495 | in every state of every run whose insertions meet the third, no update is stranded |
| `PodWorkerRuns.OneWorkerAlways` | src/cluster/kubelet/pod-workers.ts:580-718 | in every state of every orderly run, in which records are inserted only when every earlier worker has left or waits with no token, at most one worker of a record is past its receive |
| `PodWorkerRuns.PrematureTerminatedExample` | src/cluster/kubelet/pod-workers.ts:740-752 | a concrete disorderly run in which TerminatedPod is handed out for a record of which no terminating sync has returned |
| `PodWorkerRuns.StrandedExample` | src/cluster/kubelet/pod-workers.ts:512-577 | a concrete disorderly run in which an update is pending behind an open channel whose worker has left |
| `PodWorkerRuns.TwoWorkersExample` | src/cluster/kubelet/pod-workers.ts:984-1026 | a concrete disorderly run in which two workers sync one pod at once |
| `Ip.Xtoi` | src/go/net/ip.ts:197-211 | the scan for a hexadecimal number returns its value and length |
| `Ip.HexCanonical` | src/go/net/ip.ts:21-65 | printed groups have no leading zero and only lower-case digits |
| `Ip.ParseIPv4Sloppy` | src/go/net/ip.ts:80-98 | four decimal parts of at most 255, or nothing |
| `Ip.FindZeroRun` | src/go/net/ip.ts:31-47 | the scan finds the run of the specification: the leftmost longest of at least two zero groups |
| `Ip.LeftmostLongestUnique` | src/go/net/ip.ts:31-47 | there is at most one leftmost longest run |
| `Ip.FormatIP` | src/go/net/ip.ts:21-65 | prints an address, dotted when it is an IPv4 one, else with exactly the leftmost longest run of at least two zero groups elided (sections 4.2.2 and 4.2.3 of RFC 5952) |
| `Ip.ParseIPv6Sloppy` | src/go/net/ip.ts:112-195 | the parser loop over a byte array computes what the grammar of groups and one ellipsis says |
| `Ip.Expand` | src/go/net/ip.ts:184-190 | moves the bytes after the ellipsis to the end in place and clears the gap |
| `Ip.ParseIP` | src/go/net/ip.ts:6-18 | the first dot or colon decides how a text is read |
| `IpGrammar.ParsesExactly` | src/go/net/ip.ts:6-195 | a text parses as an address if and only if it is a dotted one that means it, or eight groups that hold its bytes; no text is both |
| `IpGrammar.ReadsExactly` | src/go/net/ip.ts:112-195 | a text is read as eight groups if and only if the grammar derives it: hexadecimal groups of at most 0xffff with any number of leading zeros, colons between them, at most one pair of colons for one or more zero groups, and a dotted address for the last two (section 2.2 of RFC 4291) |
| `IpGrammar.DottedExactly` | src/go/net/ip.ts:80-98 | a dotted address is four decimal parts of at most 255 with dots between them |
| `IpGrammar.HexDigitMeans` | src/go/net/ip.ts:197-211 | a hexadecimal digit is one of either case |
| `Ip.ElisionReads` | src/go/net/ip.ts:112-195 | any elision of a run of zero groups reads back as the groups |
| `Ip.PrintThenParse` | src/go/net/ip.ts:6-65 | parsing a printed address gives it back, for every sixteen bytes |
| `Ip.PrintInjective` | src/go/net/ip.ts:21-65 | no two addresses print alike |
| `Apply.CreateThreeWayMergePatch` | src/cluster/apply.ts:343-381 | the recursive loop over both key sets computes the specified patch, or throws exactly when a field that was applied and is no longer wanted, at a level that both objects share, has a name that every object inherits |
| `Apply.AgainNotRefused` | src/cluster/apply.ts:343-381 | wanting again what was applied never throws |
| `Apply.InheritedExample` | src/cluster/apply.ts:353-377 | for each inherited name, `constructor` among them, a concrete apply that throws |
| `Apply.DeepEqualMeaning` | src/deep-equal.ts:23-61 | deep equality with ignored paths is equality of the normalised values |
| `Apply.PathsAreDotted` | src/deep-equal.ts:95-97 | the path of a place is the keys that lead to it, with dots between them |
| `Apply.PlainIsEquality` | src/deep-equal.ts:6-16 | with nothing ignored, deep equality is equality |
| `Apply.PatchMerges` | src/cluster/apply.ts:343-381 | merge-patching the live object (section 2 of RFC 7386) with the computed patch is the three-way merge |
| `Apply.LiveIsIgnored` | src/cluster/apply.ts:343-381 | the patch does not depend on the live object |
| `Apply.EmptyExactly` | src/cluster/apply.ts:343-381 | the patch is empty if and only if what was applied is what is wanted; so applying twice changes nothing |
| `Apply.ApplyAchieves` | src/cluster/apply.ts:343-381 | the patched object contains what is wanted if and only if the live object has not drifted where previous and wanted agree |
| `Apply.AppliedFields` | src/cluster/apply.ts:343-381 | with the computed patch, fields applied before and no longer wanted are gone, and fields that neither names are as they were |
| `Apply.AppliedBelow` | src/cluster/apply.ts:343-381 | the same at every shared level below |
| `Apply.DriftExample` | src/cluster/apply.ts:343-381 | a concrete live object whose drift is not repaired |
| `RollingUpdate.ResolveFenceposts` | src/controller/deployment/util/deployment-util.ts:688-709 | surge and allowed unavailability are never both zero |
| `RollingUpdate.FencepostsMean` | src/controller/deployment/util/deployment-util.ts:688-709 | a surge in percent is the least number of pods not below that share, an unavailability in percent the greatest not above it, numbers stand for themselves, and one pod may be missing when both come to none; the ceiling and the floor of a rollout follow from them |
| `RollingUpdate.NewSizeExactly` | src/controller/deployment/util/deployment-util.ts:653-685 | the new replica set is given the largest size that the deployment and its surge leave room for |
| `RollingUpdate.SortFacts` | src/controller/controller-utils.ts:838-848 | oldest first, and the same replica sets |
| `RollingUpdate.CleanUpExactly` | src/controller/deployment/deployment-controller.ts:1656-1703 | the first phase stays within its budget, takes every unhealthy pod that fits when nothing fails, and none that is available |
| `RollingUpdate.UnhealthyGoFirst` | src/controller/deployment/deployment-controller.ts:1656-1703 | it goes oldest first: a replica set loses unhealthy pods only if no older one has any left |
| `RollingUpdate.ScaleDownExactly` | src/controller/deployment/deployment-controller.ts:1706-1752 | the second phase stays within its budget, uses it up when nothing fails, and costs at most one available pod for each pod taken |
| `RollingUpdate.ScaleDownShrinks` | src/controller/deployment/deployment-controller.ts:1706-1752 | it goes oldest first: a replica set loses pods only if every older one has none left |
| `RollingUpdate.BudgetsKept` | src/controller/deployment/deployment-controller.ts:1614-1752 | each phase takes at most its budget, and exactly what the budget and the pods allow when nothing fails |
| `RollingUpdate.FloorKept` | src/controller/deployment/deployment-controller.ts:1614-1752 | for all statuses and refused writes, the sum of min(available, new size) stays at least the smaller of what it was and the floor less what stale statuses report |
| `RollingUpdate.StaleFloorAttained` | src/controller/deployment/deployment-controller.ts:1706-1752 | this floor is the best one: for every floor and every stale amount up to it, some turn comes down to exactly the difference |
| `RollingUpdate.StaleStatusExample` | src/controller/deployment/deployment-controller.ts:1706-1752 | a concrete turn on a stale status that goes below the floor |
| `RollingUpdate.RolloutCeiling` | src/controller/deployment/util/deployment-util.ts:653-685 | a turn never takes the pods above replicas plus surge, or above what they were |
| `RollingUpdate.RolloutIsSafe` | src/controller/deployment/deployment-controller.ts:786-829 | throughout every rollout on caught-up statuses, with any writes refused, available pods stay at the floor and pods below the ceiling |
| `RollingUpdate.ProgressMade` | src/controller/deployment/deployment-controller.ts:786-829 | while pods become available, every turn of an incomplete rollout moves a pod |
| `RollingUpdate.RolloutCompletes` | src/controller/deployment/deployment-controller.ts:786-829 | so a rollout completes in at most as many turns as there are pods to move |
| `RollingUpdate.DeploymentController.ScaleReplicaSet` | src/controller/deployment/deployment-controller.ts:1082-1149 | writes a new size, or nothing when it is the same or the write is refused; what the write returns is what it wrote |
| `RollingUpdate.DeploymentController.CleanupUnhealthyReplicas` | src/controller/deployment/deployment-controller.ts:1656-1703 | the loop does to the cluster what the first phase says, and returns what it says, or nothing after an invalid size |
| `RollingUpdate.DeploymentController.ScaleDownOldReplicaSetsForRollingUpdate` | src/controller/deployment/deployment-controller.ts:1706-1752 | the loop does to the cluster what the second phase says |
| `RollingUpdate.DeploymentController.ReconcileOldReplicaSets` | src/controller/deployment/deployment-controller.ts:1614-1653 | both phases in turn, stopping at an error; other replica sets are untouched |
| `RollingUpdate.ScaleAddsUp` | src/controller/deployment/deployment-controller.ts:690-727 | scaled sizes add up to the allowed size if and only if the first replica set can take the whole leftover, as it always can when the deployment grows; otherwise to more |
| `RollingUpdate.SharesBounded` | src/controller/deployment/util/deployment-util.ts:325-344 | the proportional shares never overshoot what is to be added or removed, and no size is negative |
| `RollingUpdate.ProportionMeans` | src/controller/deployment/util/deployment-util.ts:325-362 | a replica set goes to the nearest whole size to that which grows as the deployment does, halves going up, as far as what is left to be added or removed allows; an empty one stays empty |
| `RollingUpdate.SharesInTurn` | src/controller/deployment/deployment-controller.ts:690-727 | each replica set has its turn on what the earlier ones left |
| `RollingUpdate.SizesByName` | src/controller/deployment/deployment-controller.ts:690-727 | the two loops that compute the sizes fill them in by name as specified |
| `RollingUpdate.LeftoverExample` | src/controller/deployment/util/deployment-util.ts:346-362 | a concrete deployment whose scaled sizes add up to more than is allowed |

## Left out

- Locale collation: histories are ordered by `localeCompare` in the original and ranges by `<`; here one order on UTF-16 units serves both.
- Watch handlers run as part of the delivery and do not call back into the store; keys and values as bytes are texts and numbers here.
- The header and lease fields of answers, which other code only passes on, and the statement builders in front of the store.
- Nested transactions are refused as in the original; a transaction refused midway keeps its writes, which then count as lost to watchers.
- Locks: waiting in `withLock` and the namespace of a lock key, which is given in full.
- Locks.Leases.RevokeLease: does not clear the timers of the lease, which are modelled apart from its key; `HeldLocks` joins the two on values, and there the expiry callback is what may revoke.
- Stores.Store.CommitDelete: is one round of the retrying loop, because how often it is retried depends on what others do.
- Validation, defaulting, generated names and uids, namespace checks and the follow-up delete of an update that clears the last finalizer.
- Service allocation is modelled on values, one step for each await; lock time-outs while allocating are failures of the operation, and time-outs while releasing are not in the model. The allocators' state in the store is the class of `Allocatable`, whose lock makes each call one step, and whose bytes are eight flags each.
- Cidr.RangesArePools: is about IPv4 ranges with given bounds; IPv6 ranges and the reading of a range text are not in the model.
- ServiceAllocation.RepeatedPortExample: shows the service that is stored; that such a write breaks the partition is ServiceAllocation.CommitExact.
- The informer's selectors, its error callbacks, the bookmark and error phases of its handler (a status of 410 is the step `Gone` of `Mirror`, which the store's own watches never report), and its two-level map by namespace, which is one map by key here.
- Mirror: the runs of an informer hold no transactions refused midway; Mirror.StoreKeepsStep states what these need instead.
- Informer.WatchKeepsStep: assumes that the watch repeats nothing, because the resource version stays behind when the watch delivers what the cache already has; the runs of `Mirror` do not assume it.
- Clocks: a paused clock only; callbacks are lists of actions that may depend on the time and on all that ran, and they do not step or pause the clock themselves.
- Channels: handlers of a select run after it has settled and do not re-enter the channel code; the `onReceive` hook, async iteration and read-only views. A settled operation is taken out of the queues by its number, not by its closures.
- Pod workers: one pod; `close`, the channels and functions that are told of a termination, start times and the delays of the work queue. `RemoveTerminatedWorker` stands for the sweep of `syncKnownPods` over one record.
- KubeletWorkers.PodWorkersImpl.SyncReturned: the outcome of a sync is a parameter, because the pod syncer is not part of this model.
- Address texts: joining hosts and ports, and printing addresses of other lengths.
- Apply: the annotation that records what was applied, and dates; undefined fields are left out only where the original leaves them out.
- Apply.CreateThreeWayMergePatch: a field named `__proto__`, which is an object and not a function, is not told from other fields.
- RollingUpdate.FloorKept: names are unique and every replica set has one; creation times are numbers, and names break ties by a number. A refused write ends the turn as in the original.
- RollingUpdate.DeploymentController.ScaleReplicaSet: models the size only; the annotations, and the update that is forced when they alone differ, are not in the model.
- RollingUpdate.SizesByName: computes the sizes; the writes that follow are those of ScaleReplicaSet.
- RollingUpdate.ScaleAddsUp: holds for any order of the replica sets, so that the ordering by size is not in the model; `Math.round` is exact here, on rationals.
- The contexts, timers, string conversions, the recency cache and the image proxy's index: they would only add easier members.
- Controllers other than the rolling update, containers, networking, the user interface and generated clients.
