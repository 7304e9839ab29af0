/** The abstract multi-version store: one log of every event, and what reads,
    histories and watchers must show of it. */
module Mvcc {
  import opened Options
  import opened Text

  /** A live value of a key. */
  datatype Stored = Stored(key: Str, value: Bytes, createRevision: nat, modRevision: nat, version: nat)

  /** One retained revision of a key; a deletion has no value. */
  datatype Record = Record(key: Str, value: Option<Bytes>, createRevision: nat, modRevision: nat, version: nat, deleted: bool)

  datatype EventType = PutEvent | DeleteEvent

  datatype Event = Event(kind: EventType, kv: Stored, prev: Option<Stored>)

  /** An event together with the revision that made it. */
  datatype Entry = Entry(revision: nat, event: Event) {
    function Key(): Str { event.kv.key }
  }

  type Log = seq<Entry>

  type Snapshot = map<Str, Stored>

  function Lookup(s: Snapshot, key: Str): Option<Stored> {
    if key in s then Some(s[key]) else None
  }

  function ApplyEvent(s: Snapshot, e: Event): Snapshot {
    if e.kind.PutEvent? then s[e.kv.key := e.kv] else s - {e.kv.key}
  }

  /** The live keys after the whole log. */
  function Current(log: Log): Snapshot {
    if log == [] then map[] else ApplyEvent(Current(log[..|log| - 1]), log[|log| - 1].event)
  }

  /** The live keys after every event of revision at most `revision`. */
  function SnapshotAt(log: Log, revision: nat): Snapshot {
    if log == [] then map[]
    else
      var before := SnapshotAt(log[..|log| - 1], revision);
      if log[|log| - 1].revision <= revision then ApplyEvent(before, log[|log| - 1].event) else before
  }

  /** The events of exactly one revision, in order. */
  function At(log: Log, revision: nat): seq<Entry> {
    if log == [] then []
    else if log[|log| - 1].revision == revision then At(log[..|log| - 1], revision) + [log[|log| - 1]]
    else At(log[..|log| - 1], revision)
  }

  function RecordOf(e: Entry): Record {
    var kv := e.event.kv;
    if e.event.kind.PutEvent? then Record(kv.key, Some(kv.value), kv.createRevision, e.revision, kv.version, false)
    else Record(kv.key, None, kv.createRevision, e.revision, kv.version, true)
  }

  /** Every revision a key ever had. */
  function History(log: Log, key: Str): seq<Record> {
    if log == [] then []
    else if log[|log| - 1].Key() == key then History(log[..|log| - 1], key) + [RecordOf(log[|log| - 1])]
    else History(log[..|log| - 1], key)
  }

  /** The last record of a history at or before a revision. */
  function FindAt(h: seq<Record>, revision: nat): Option<Record> {
    if h == [] then None
    else if h[|h| - 1].modRevision <= revision then Some(h[|h| - 1])
    else FindAt(h[..|h| - 1], revision)
  }

  function Resolve(r: Option<Record>): Option<Stored> {
    if r.None? || r.value.deleted then None
    else Some(Stored(r.value.key, if r.value.value.Some? then r.value.value.value else [],
                     r.value.createRevision, r.value.modRevision, r.value.version))
  }

  function CurrentOf(h: seq<Record>): Option<Stored> {
    if h == [] then None else Resolve(Some(h[|h| - 1]))
  }

  predicate Increasing(h: seq<Record>) {
    forall i, j :: 0 <= i < j < |h| ==> h[i].modRevision < h[j].modRevision
  }

  function LastRevision(h: seq<Record>): nat {
    if h == [] then 0 else h[|h| - 1].modRevision
  }

  /** An event says truly what it replaced and counts versions from the last deletion. */
  predicate EventOk(s: Snapshot, e: Entry) {
    var kv, prev := e.event.kv, e.event.prev;
    && prev == Lookup(s, kv.key)
    && kv.modRevision == e.revision
    && (if e.event.kind.PutEvent? then
          && kv.version == (if prev.Some? then prev.value.version + 1 else 1)
          && kv.createRevision == (if prev.Some? then prev.value.createRevision else e.revision)
        else prev.Some? && kv == prev.value.(modRevision := e.revision))
  }

  /** A log that the store can produce: revisions never go back, and no key is written
      twice at one revision. */
  predicate WellFormed(log: Log) {
    log == [] ||
    var init, last := log[..|log| - 1], log[|log| - 1];
    && WellFormed(init)
    && EventOk(Current(init), last)
    && 0 < last.revision
    && (init != [] ==> init[|init| - 1].revision <= last.revision)
    && LastRevision(History(init, last.Key())) < last.revision
  }

  // ----- growing the log by one event -----

  lemma Extend(log: Log, e: Entry, key: Str, revision: nat)
    ensures Current(log + [e]) == ApplyEvent(Current(log), e.event)
    ensures SnapshotAt(log + [e], revision) ==
            if e.revision <= revision then ApplyEvent(SnapshotAt(log, revision), e.event) else SnapshotAt(log, revision)
    ensures At(log + [e], revision) == if e.revision == revision then At(log, revision) + [e] else At(log, revision)
    ensures History(log + [e], key) == if e.Key() == key then History(log, key) + [RecordOf(e)] else History(log, key)
    ensures WellFormed(log + [e]) <==>
            && WellFormed(log) && EventOk(Current(log), e) && 0 < e.revision
            && (log != [] ==> log[|log| - 1].revision <= e.revision)
            && LastRevision(History(log, e.Key())) < e.revision
  {
    var more := log + [e];
    assert more[..|more| - 1] == log;
  }

  lemma {:induction false} RevisionsBounded(log: Log)
    requires WellFormed(log)
    ensures forall i, j :: 0 <= i <= j < |log| ==> log[i].revision <= log[j].revision
  {
    if log != [] {
      RevisionsBounded(log[..|log| - 1]);
    }
  }

  // ----- per-key bookkeeping -----

  predicate Within(h: seq<Record>, key: Str, revision: nat) {
    forall i :: 0 <= i < |h| ==> h[i].key == key && 0 < h[i].modRevision <= revision
  }

  lemma WithinStep(h: seq<Record>, r: Record, low: nat, high: nat)
    requires Within(h, r.key, low) && Increasing(h) && low <= high == r.modRevision && LastRevision(h) < high
    ensures Within(h + [r], r.key, high) && Increasing(h + [r])
  {
  }

  lemma {:induction false} HistoryWithin(log: Log, key: Str, revision: nat)
    requires WellFormed(log) && (log != [] ==> log[|log| - 1].revision <= revision)
    ensures Increasing(History(log, key)) && Within(History(log, key), key, revision)
  {
    hide EventOk, Current, Increasing, Within;
    if log == [] {
      WithinNothing(key, revision);
    } else {
      var init, last := log[..|log| - 1], log[|log| - 1];
      if last.Key() == key {
        HistoryWithin(init, key, last.revision);
        WithinStep(History(init, key), RecordOf(last), last.revision, last.revision);
        WithinMore(History(log, key), key, last.revision, revision);
      } else {
        HistoryWithin(init, key, revision);
      }
    }
  }

  lemma WithinNothing(key: Str, revision: nat)
    ensures Increasing([]) && Within([], key, revision)
  {
  }

  lemma WithinMore(h: seq<Record>, key: Str, low: nat, high: nat)
    requires Within(h, key, low) && low <= high
    ensures Within(h, key, high)
  {
  }

  /** A key's records have strictly increasing revisions. */
  lemma HistoryIncreasing(log: Log, key: Str)
    requires WellFormed(log)
    ensures Increasing(History(log, key))
    ensures forall i :: 0 <= i < |History(log, key)| ==>
                          History(log, key)[i].key == key && 0 < History(log, key)[i].modRevision <= log[|log| - 1].revision
  {
    hide WellFormed;
    HistoryWithin(log, key, if log == [] then 0 else log[|log| - 1].revision);
  }

  /** The number of puts since the last deletion. */
  function PutsSinceDelete(h: seq<Record>): nat {
    if h == [] || h[|h| - 1].deleted then 0 else 1 + PutsSinceDelete(h[..|h| - 1])
  }

  /** The revision of the first put since the last deletion; `none` when there is no such put. */
  function FirstSinceDelete(h: seq<Record>, none: nat): nat {
    if h == [] || h[|h| - 1].deleted then none
    else FirstSinceDelete(h[..|h| - 1], h[|h| - 1].modRevision)
  }

  lemma {:induction false} FirstSinceDeleteIndependent(h: seq<Record>, a: nat, b: nat)
    requires h != [] && !h[|h| - 1].deleted
    ensures FirstSinceDelete(h, a) == FirstSinceDelete(h, b)
  {
  }

  /** What a key shows is what its history counts: its version is the number of puts
      since the last deletion and its create revision the first of them. */
  predicate CountsFrom(v: Option<Stored>, h: seq<Record>, key: Str) {
    && v == CurrentOf(h)
    && (v.Some? ==>
          && v.value.key == key
          && v.value.version == PutsSinceDelete(h)
          && v.value.createRevision == FirstSinceDelete(h, 0))
  }

  lemma CountsStep(s: Snapshot, h: seq<Record>, e: Entry)
    requires EventOk(s, e) && CountsFrom(Lookup(s, e.Key()), h, e.Key())
    ensures CountsFrom(Lookup(ApplyEvent(s, e.event), e.Key()), h + [RecordOf(e)], e.Key())
  {
    var h' := h + [RecordOf(e)];
    assert h'[..|h'| - 1] == h;
    if e.event.kind.PutEvent? && h != [] && !h[|h| - 1].deleted {
      FirstSinceDeleteIndependent(h, 0, e.revision);
    }
  }

  lemma {:induction false} LiveMatchesHistory(log: Log, key: Str)
    requires WellFormed(log)
    ensures CountsFrom(Lookup(Current(log), key), History(log, key), key)
  {
    if log != [] {
      var init, last := log[..|log| - 1], log[|log| - 1];
      LiveMatchesHistory(init, key);
      if last.Key() == key {
        CountsStep(Current(init), History(init, key), last);
      }
    }
  }

  // ----- reading a history -----

  /** The record found is the last one at or before the revision. */
  predicate LastUpTo(h: seq<Record>, revision: nat, i: nat) {
    i < |h| && h[i].modRevision <= revision && forall j :: i < j < |h| ==> h[j].modRevision > revision
  }

  lemma {:induction false} FindAtMeaning(h: seq<Record>, revision: nat)
    ensures FindAt(h, revision).None? <==> forall i :: 0 <= i < |h| ==> h[i].modRevision > revision
    ensures FindAt(h, revision).Some? ==> exists i: nat :: LastUpTo(h, revision, i) && h[i] == FindAt(h, revision).value
  {
    if h != [] {
      var last := |h| - 1;
      if h[last].modRevision > revision {
        FindAtMeaning(h[..last], revision);
        if FindAt(h[..last], revision).Some? {
          var i: nat :| LastUpTo(h[..last], revision, i) && h[..last][i] == FindAt(h[..last], revision).value;
          LastUpToGrows(h, revision, i);
        }
      } else {
        assert LastUpTo(h, revision, last);
      }
    }
  }

  lemma LastUpToGrows(h: seq<Record>, revision: nat, i: nat)
    requires h != [] && h[|h| - 1].modRevision > revision && LastUpTo(h[..|h| - 1], revision, i)
    ensures LastUpTo(h, revision, i) && h[i] == h[..|h| - 1][i]
  {
    forall j | i < j < |h|
      ensures h[j].modRevision > revision
    {
      assert j < |h| - 1 ==> h[..|h| - 1][j] == h[j];
    }
  }

  lemma {:induction false} FindAtUnique(h: seq<Record>, revision: nat, i: nat)
    requires Increasing(h) && i < |h| && h[i].modRevision <= revision
    requires forall j :: i < j < |h| ==> h[j].modRevision > revision
    ensures FindAt(h, revision) == Some(h[i])
  {
    if i < |h| - 1 {
      FindAtUnique(h[..|h| - 1], revision, i);
    }
  }

  /** The loop of the source: a binary search for the last record at or before a revision. */
  method FindRevisionAtOrBefore(revisions: seq<Record>, revision: nat) returns (result: Option<Record>)
    requires Increasing(revisions)
    ensures result == FindAt(revisions, revision)
  {
    var low: int, high: int := 0, |revisions| - 1;
    result := None;
    while low <= high
      invariant 0 <= low <= high + 1 <= |revisions|
      invariant forall i :: 0 <= i < low ==> revisions[i].modRevision <= revision
      invariant forall i :: high < i < |revisions| ==> revisions[i].modRevision > revision
      invariant result == if low == 0 then None else Some(revisions[low - 1])
    {
      var mid := (low + high) / 2;
      var candidate := revisions[mid];
      if candidate.modRevision <= revision {
        result := Some(candidate);
        low := mid + 1;
      } else {
        high := mid - 1;
      }
    }
    if low > 0 {
      FindAtUnique(revisions, revision, low - 1);
    } else {
      FindAtMeaning(revisions, revision);
    }
  }

  /** The snapshot at a revision is what every key's full history resolves to there. */
  lemma {:induction false} SnapshotIsHistory(log: Log, revision: nat, key: Str)
    requires WellFormed(log)
    ensures Lookup(SnapshotAt(log, revision), key) == Resolve(FindAt(History(log, key), revision))
  {
    if log != [] {
      var init, last := log[..|log| - 1], log[|log| - 1];
      SnapshotIsHistory(init, revision, key);
      if last.Key() == key {
        assert EventOk(Current(init), last);
        FindAtAppend(History(init, key), RecordOf(last), revision);
      }
    }
  }

  lemma FindAtAppend(h: seq<Record>, r: Record, revision: nat)
    ensures FindAt(h + [r], revision) == if r.modRevision <= revision then Some(r) else FindAt(h, revision)
  {
    assert (h + [r])[..|h + [r]| - 1] == h;
  }

  lemma {:induction false} SnapshotOfAll(log: Log, revision: nat)
    requires forall i :: 0 <= i < |log| ==> log[i].revision <= revision
    ensures SnapshotAt(log, revision) == Current(log)
  {
    if log != [] {
      SnapshotOfAll(log[..|log| - 1], revision);
    }
  }

  // ----- trimmed histories -----

  /** The newest `retained` records. */
  function Keep(h: seq<Record>, retained: nat): seq<Record> {
    if |h| > retained then h[|h| - retained..] else h
  }

  /** The revision `r` falls between the newest trimmed record of a key, which was a live value,
      and its oldest retained one. */
  predicate InTrimGap(h: seq<Record>, retained: nat, r: nat) {
    |h| > retained > 0 && r < h[|h| - retained].modRevision && !h[|h| - retained - 1].deleted
  }

  /** Exactly when reading the retained records gives the true value at a revision above the
      watermark. */
  lemma {:induction false} KeepReadsExact(h: seq<Record>, retained: nat, watermark: nat, r: nat)
    requires Increasing(h) && retained > 0 && watermark < r
    requires forall i :: 0 <= i < |h| - retained ==> h[i].modRevision <= watermark
    ensures Resolve(FindAt(Keep(h, retained), r)) == Resolve(FindAt(h, r)) <==> !InTrimGap(h, retained, r)
  {
    if |h| > retained {
      var d := |h| - retained;
      if FindAt(h[d..], r).Some? {
        FindAtSuffix(h, d, r);
      } else {
        FindAtMeaning(h[d..], r);
        assert forall j :: d <= j < |h| ==> h[d..][j - d] == h[j];
        FindAtUnique(h, r, d - 1);
      }
    }
  }

  lemma {:induction false} FindAtSuffix(h: seq<Record>, d: nat, r: nat)
    requires d < |h| && Increasing(h) && FindAt(h[d..], r).Some?
    ensures FindAt(h, r) == FindAt(h[d..], r)
    ensures h[d].modRevision <= r
  {
    if h[|h| - 1].modRevision > r {
      assert h[..|h| - 1][d..] == h[d..][..|h| - 1 - d];
      FindAtSuffix(h[..|h| - 1], d, r);
    }
  }
}
