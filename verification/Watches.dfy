/** What a watcher is owed: one response per revision, in order. */
module Watches {
  import opened Options
  import opened Text
  import opened KeyRange
  import opened Mvcc

  datatype WatchSpec = WatchSpec(namespace: Str, key: Str, rangeEnd: Str, prevKv: bool, filters: set<EventType>)

  datatype Response = Response(revision: nat, events: seq<Event>)

  function UnprefixKey(key: Str, namespace: Str): Str {
    if namespace != [] && StartsWith(key, namespace) then key[|namespace|..] else key
  }

  predicate Wanted(w: WatchSpec, e: Entry) {
    && IsKeyInRange(e.Key(), NamespacedKey(w.namespace, w.key), NamespacedRangeEnd(w.namespace, w.rangeEnd))
    && e.event.kind !in w.filters
  }

  /** An event as the watcher's client sees it. */
  function Shown(w: WatchSpec, e: Event): Event {
    Event(e.kind,
          e.kv.(key := UnprefixKey(e.kv.key, w.namespace)),
          if w.prevKv && e.prev.Some? then Some(e.prev.value.(key := UnprefixKey(e.prev.value.key, w.namespace))) else None)
  }

  function Shows(w: WatchSpec, entries: seq<Entry>): seq<Event> {
    if entries == [] then []
    else
      var before, last := Shows(w, entries[..|entries| - 1]), entries[|entries| - 1];
      if Wanted(w, last) then before + [Shown(w, last.event)] else before
  }

  /** The response, if any, to one revision's events. */
  function Respond(w: WatchSpec, revision: nat, entries: seq<Entry>): seq<Response> {
    if Shows(w, entries) == [] then [] else [Response(revision, Shows(w, entries))]
  }

  /** A revision that a watcher connected at `connectedAt` never hears of: its transaction was
      refused midway, after the watcher had connected. */
  predicate Silent(lost: set<nat>, connectedAt: nat, revision: nat) {
    revision in lost && connectedAt < revision
  }

  /** The responses to the revisions from `from` to `upTo`. */
  function Deliveries(w: WatchSpec, log: Log, from: nat, upTo: nat, lost: set<nat>, connectedAt: nat): seq<Response>
    decreases upTo
  {
    if upTo < from || upTo == 0 then []
    else
      var before := Deliveries(w, log, from, upTo - 1, lost, connectedAt);
      if Silent(lost, connectedAt, upTo) then before else before + Respond(w, upTo, At(log, upTo))
  }

  /** Where a watcher that connects at revision `connectedAt` really starts. */
  function EffectiveStart(startRevision: Option<int>, compacted: nat, connectedAt: nat): nat {
    if startRevision.None? || startRevision.value <= compacted || startRevision.value > connectedAt + 1 then connectedAt + 1
    else startRevision.value
  }

  // ----- what a watcher of a namespace is told -----

  /** A watcher in a namespace hears of a key of it exactly when the key without the namespace is in the
      range that was asked for and its kind of event is not filtered out. */
  lemma WantedMeans(w: WatchSpec, e: Entry, key: Str)
    requires e.Key() == w.namespace + key
    ensures var inside := if w.rangeEnd == [] then key == w.key
                          else !Less(key, w.key) && (w.rangeEnd == [0] || Less(key, w.rangeEnd));
            Wanted(w, e) <==> inside && e.event.kind !in w.filters
  {
    NamespaceTransparent(w.namespace, w.key, w.rangeEnd, key);
  }

  /** It is told of the key without the namespace, of all else as it is in the log, and of the value
      before if it asked for that. */
  lemma ShownMeans(w: WatchSpec, e: Event, key: Str)
    requires e.kv.key == w.namespace + key && (e.prev.Some? ==> e.prev.value.key == e.kv.key)
    ensures Shown(w, e) == Event(e.kind, e.kv.(key := key),
                                 if w.prevKv && e.prev.Some? then Some(e.prev.value.(key := key)) else None)
  {
    assert (w.namespace + key)[..|w.namespace|] == w.namespace && (w.namespace + key)[|w.namespace|..] == key;
  }

  // ----- deliveries do not change when the log grows -----

  lemma {:induction false} AtFresh(log: Log, more: seq<Entry>, revision: nat)
    requires forall i :: 0 <= i < |log| ==> log[i].revision < revision
    requires forall i :: 0 <= i < |more| ==> more[i].revision == revision
    ensures At(log + more, revision) == more
    ensures forall r: nat :: r != revision ==> At(log + more, r) == At(log, r)
  {
    if more == [] {
      assert log + more == log;
      AtNone(log, revision);
    } else {
      var init, last := more[..|more| - 1], more[|more| - 1];
      AtFresh(log, init, revision);
      assert log + more == (log + init) + [last];
      forall r: nat
        ensures At(log + more, r) == if r == revision then more else At(log, r)
      {
        Extend(log + init, last, [], r);
      }
    }
  }

  lemma {:induction false} AtNone(log: Log, revision: nat)
    requires forall i :: 0 <= i < |log| ==> log[i].revision < revision
    ensures At(log, revision) == []
  {
    if log != [] {
      AtNone(log[..|log| - 1], revision);
    }
  }

  /** Later revisions, and whether they were published, do not matter to what is delivered up to `upTo`. */
  lemma {:induction false} DeliveriesStable(w: WatchSpec, log: Log, log': Log, from: nat, upTo: nat,
                                            lost: set<nat>, lost': set<nat>, connectedAt: nat)
    requires forall r: nat :: r <= upTo ==> At(log', r) == At(log, r)
    requires forall r: nat :: r <= upTo ==> (Silent(lost', connectedAt, r) <==> Silent(lost, connectedAt, r))
    ensures Deliveries(w, log', from, upTo, lost', connectedAt) == Deliveries(w, log, from, upTo, lost, connectedAt)
    decreases upTo
  {
    if upTo >= from && upTo > 0 {
      DeliveriesStable(w, log, log', from, upTo - 1, lost, lost', connectedAt);
    }
  }

  // ----- what the deliveries are -----

  predicate Covered(from: nat, upTo: nat, lost: set<nat>, connectedAt: nat, revision: nat) {
    0 < revision && from <= revision <= upTo && !Silent(lost, connectedAt, revision)
  }

  /** The log events that the deliveries carry. */
  function Carried(w: WatchSpec, log: Log, from: nat, upTo: nat, lost: set<nat>, connectedAt: nat): seq<Entry> {
    if log == [] then []
    else
      var before, last := Carried(w, log[..|log| - 1], from, upTo, lost, connectedAt), log[|log| - 1];
      if Covered(from, upTo, lost, connectedAt, last.revision) && Wanted(w, last) then before + [last] else before
  }

  function Flatten(responses: seq<Response>): seq<Event> {
    if responses == [] then [] else Flatten(responses[..|responses| - 1]) + responses[|responses| - 1].events
  }

  function ShownAll(w: WatchSpec, entries: seq<Entry>): seq<Event> {
    seq(|entries|, i requires 0 <= i < |entries| => Shown(w, entries[i].event))
  }

  predicate Ordered(log: Log) {
    forall i, j :: 0 <= i <= j < |log| ==> log[i].revision <= log[j].revision
  }

  lemma {:induction false} CarriedBelow(w: WatchSpec, log: Log, from: nat, upTo: nat, lost: set<nat>, connectedAt: nat)
    requires 0 < upTo && forall i :: 0 <= i < |log| ==> log[i].revision < upTo
    ensures Carried(w, log, from, upTo, lost, connectedAt) == Carried(w, log, from, upTo - 1, lost, connectedAt)
  {
    if log != [] {
      CarriedBelow(w, log[..|log| - 1], from, upTo, lost, connectedAt);
    }
  }

  lemma {:induction false} CarriedStep(w: WatchSpec, log: Log, from: nat, upTo: nat, lost: set<nat>, connectedAt: nat)
    requires Ordered(log) && 0 < upTo && from <= upTo
    ensures ShownAll(w, Carried(w, log, from, upTo, lost, connectedAt)) ==
            ShownAll(w, Carried(w, log, from, upTo - 1, lost, connectedAt)) +
            (if Silent(lost, connectedAt, upTo) then [] else Shows(w, At(log, upTo)))
  {
    if log != [] {
      var init, last := log[..|log| - 1], log[|log| - 1];
      if last.revision < upTo {
        AtNone(log, upTo);
        CarriedBelow(w, log, from, upTo, lost, connectedAt);
      } else {
        CarriedStep(w, init, from, upTo, lost, connectedAt);
        if last.revision == upTo {
          ShowsAppend(w, At(init, upTo), last);
          ShownAllAppend(w, Carried(w, init, from, upTo, lost, connectedAt), last);
        }
      }
    }
  }

  lemma ShowsAppend(w: WatchSpec, entries: seq<Entry>, e: Entry)
    ensures Shows(w, entries + [e]) == if Wanted(w, e) then Shows(w, entries) + [Shown(w, e.event)] else Shows(w, entries)
  {
    assert (entries + [e])[..|entries + [e]| - 1] == entries;
  }

  lemma ShownAllAppend(w: WatchSpec, entries: seq<Entry>, e: Entry)
    ensures ShownAll(w, entries + [e]) == ShownAll(w, entries) + [Shown(w, e.event)]
  {
  }

  /** The events delivered are exactly the wanted log events of the covered revisions, in log
      order, each once. */
  lemma {:induction false} DeliveriesCarry(w: WatchSpec, log: Log, from: nat, upTo: nat, lost: set<nat>, connectedAt: nat)
    requires Ordered(log)
    ensures Flatten(Deliveries(w, log, from, upTo, lost, connectedAt)) == ShownAll(w, Carried(w, log, from, upTo, lost, connectedAt))
    decreases upTo
  {
    hide ShownAll, Carried, Ordered, At, Shows, Shown;
    if upTo < from || upTo == 0 {
      CarriedNothing(w, log, from, upTo, lost, connectedAt);
      assert ShownAll(w, []) == [] by { NothingShown(w); }
    } else {
      DeliveriesCarry(w, log, from, upTo - 1, lost, connectedAt);
      CarriedStep(w, log, from, upTo, lost, connectedAt);
      FlattenResponse(w, Deliveries(w, log, from, upTo - 1, lost, connectedAt), upTo, At(log, upTo));
      hide Respond, Flatten;
    }
  }

  lemma NothingShown(w: WatchSpec)
    ensures ShownAll(w, []) == []
  {
  }

  lemma FlattenResponse(w: WatchSpec, before: seq<Response>, revision: nat, entries: seq<Entry>)
    ensures Flatten(before + Respond(w, revision, entries)) == Flatten(before) + Shows(w, entries)
  {
    hide Shows;
    if Shows(w, entries) == [] {
      assert before + [] == before;
    } else {
      var r := Response(revision, Shows(w, entries));
      assert (before + [r])[..|before + [r]| - 1] == before;
    }
  }

  lemma {:induction false} CarriedNothing(w: WatchSpec, log: Log, from: nat, upTo: nat, lost: set<nat>, connectedAt: nat)
    requires upTo < from || upTo == 0
    ensures Carried(w, log, from, upTo, lost, connectedAt) == []
  {
    if log != [] {
      CarriedNothing(w, log[..|log| - 1], from, upTo, lost, connectedAt);
    }
  }

  /** One response per covered revision that has a wanted event, in increasing order. */
  predicate Ascending(d: seq<Response>) {
    forall i, j :: 0 <= i < j < |d| ==> d[i].revision < d[j].revision
  }

  predicate Answers(w: WatchSpec, log: Log, from: nat, upTo: nat, lost: set<nat>, connectedAt: nat, r: Response) {
    Covered(from, upTo, lost, connectedAt, r.revision) && r.events == Shows(w, At(log, r.revision)) != []
  }

  predicate Answered(w: WatchSpec, log: Log, d: seq<Response>, revision: nat) {
    Response(revision, Shows(w, At(log, revision))) in d
  }

  ghost predicate Batches(w: WatchSpec, log: Log, from: nat, upTo: nat, lost: set<nat>, connectedAt: nat, d: seq<Response>) {
    && Ascending(d)
    && (forall r :: r in d ==> Answers(w, log, from, upTo, lost, connectedAt, r))
    && (forall r: nat :: Covered(from, upTo, lost, connectedAt, r) && Shows(w, At(log, r)) != [] ==> Answered(w, log, d, r))
  }

  lemma {:induction false} DeliveriesBatches(w: WatchSpec, log: Log, from: nat, upTo: nat, lost: set<nat>, connectedAt: nat)
    ensures Batches(w, log, from, upTo, lost, connectedAt, Deliveries(w, log, from, upTo, lost, connectedAt))
    decreases upTo
  {
    if upTo >= from && upTo > 0 {
      hide Batches, Shows, At;
      DeliveriesBatches(w, log, from, upTo - 1, lost, connectedAt);
      OneMoreBatch(w, log, from, upTo, lost, connectedAt, Deliveries(w, log, from, upTo - 1, lost, connectedAt));
    }
  }

  lemma OneMoreBatch(w: WatchSpec, log: Log, from: nat, upTo: nat, lost: set<nat>, connectedAt: nat, before: seq<Response>)
    requires from <= upTo && 0 < upTo && Batches(w, log, from, upTo - 1, lost, connectedAt, before)
    ensures Batches(w, log, from, upTo, lost, connectedAt,
                    if Silent(lost, connectedAt, upTo) then before else before + Respond(w, upTo, At(log, upTo)))
  {
    hide Shows, At, Ascending, Answers, Answered;
    var d := if Silent(lost, connectedAt, upTo) then before else before + Respond(w, upTo, At(log, upTo));
    forall r | r in before
      ensures Answers(w, log, from, upTo, lost, connectedAt, r) && r.revision < upTo
    {
      StillAnswers(w, log, from, upTo, lost, connectedAt, r);
    }
    if d != before {
      LastAnswers(w, log, from, upTo, lost, connectedAt);
      AscendingMore(before, Response(upTo, Shows(w, At(log, upTo))));
    }
    forall r: nat | Covered(from, upTo, lost, connectedAt, r) && Shows(w, At(log, r)) != []
      ensures Answered(w, log, d, r)
    {
      assert r < upTo ==> Covered(from, upTo - 1, lost, connectedAt, r) && Answered(w, log, before, r);
      AnsweredMore(w, log, before, Respond(w, upTo, At(log, upTo)), r);
    }
  }

  lemma StillAnswers(w: WatchSpec, log: Log, from: nat, upTo: nat, lost: set<nat>, connectedAt: nat, r: Response)
    requires 0 < upTo && Answers(w, log, from, upTo - 1, lost, connectedAt, r)
    ensures Answers(w, log, from, upTo, lost, connectedAt, r) && r.revision < upTo
  {
  }

  lemma LastAnswers(w: WatchSpec, log: Log, from: nat, upTo: nat, lost: set<nat>, connectedAt: nat)
    requires from <= upTo && 0 < upTo && !Silent(lost, connectedAt, upTo) && Shows(w, At(log, upTo)) != []
    ensures Answers(w, log, from, upTo, lost, connectedAt, Response(upTo, Shows(w, At(log, upTo))))
  {
  }

  lemma AscendingMore(d: seq<Response>, r: Response)
    requires Ascending(d) && forall x :: x in d ==> x.revision < r.revision
    ensures Ascending(d + [r])
  {
  }

  lemma AnsweredMore(w: WatchSpec, log: Log, d: seq<Response>, more: seq<Response>, revision: nat)
    ensures Answered(w, log, d, revision) || Answered(w, log, more, revision) ==> Answered(w, log, d + more, revision)
    ensures Shows(w, At(log, revision)) != [] ==> Answered(w, log, Respond(w, revision, At(log, revision)), revision)
  {
  }

  /** What a watcher that asked for `start` is owed by revision `to`: every wanted event. */
  function Owed(w: WatchSpec, log: Log, start: nat, upTo: nat): seq<Response> {
    Deliveries(w, log, start, upTo, {}, 0)
  }

  /** Exactly when a watcher has been delivered exactly what it asked for: nothing wanted happened
      between its connection and a later start, and nothing wanted was lost by a refused
      transaction since. A start of at most connectedAt + 1 makes the first condition void. */
  lemma ExactlyOnce(w: WatchSpec, log: Log, start: nat, upTo: nat, lost: set<nat>, compacted: nat, connectedAt: nat)
    requires compacted < start && compacted <= connectedAt <= upTo
    ensures Deliveries(w, log, EffectiveStart(Some(start), compacted, connectedAt), upTo, lost, connectedAt) == Owed(w, log, start, upTo)
            <==>
            && (forall r: nat :: connectedAt < r < start && r <= upTo && Shows(w, At(log, r)) != [] ==> r in lost)
            && (forall r: nat :: connectedAt < r && start <= r <= upTo && r in lost ==> Shows(w, At(log, r)) == [])
  {
    var from := EffectiveStart(Some(start), compacted, connectedAt);
    var d, owed := Deliveries(w, log, from, upTo, lost, connectedAt), Owed(w, log, start, upTo);
    if d == owed {
      forall r: nat
        ensures Covered(from, upTo, lost, connectedAt, r) && Shows(w, At(log, r)) != [] <==>
                Covered(start, upTo, {}, 0, r) && Shows(w, At(log, r)) != []
      {
        Hears(w, log, from, upTo, lost, connectedAt, r);
        Hears(w, log, start, upTo, {}, 0, r);
      }
    } else if (forall r: nat :: connectedAt < r < start && r <= upTo && Shows(w, At(log, r)) != [] ==> r in lost)
              && (forall r: nat :: connectedAt < r && start <= r <= upTo && r in lost ==> Shows(w, At(log, r)) == []) {
      SameDeliveries(w, log, from, start, upTo, lost, connectedAt);
    }
  }

  predicate HasRevision(responses: seq<Response>, r: nat) {
    exists i :: 0 <= i < |responses| && responses[i].revision == r
  }

  /** The revisions a watcher hears of are the covered ones with a wanted event. */
  lemma Hears(w: WatchSpec, log: Log, from: nat, upTo: nat, lost: set<nat>, connectedAt: nat, r: nat)
    ensures var d := Deliveries(w, log, from, upTo, lost, connectedAt);
            HasRevision(d, r) <==> Covered(from, upTo, lost, connectedAt, r) && Shows(w, At(log, r)) != []
  {
    DeliveriesBatches(w, log, from, upTo, lost, connectedAt);
    hide Shows, At, Deliveries, Silent;
    var d := Deliveries(w, log, from, upTo, lost, connectedAt);
    if HasRevision(d, r) {
      var i :| 0 <= i < |d| && d[i].revision == r;
      assert d[i] in d && Answers(w, log, from, upTo, lost, connectedAt, d[i]);
    }
    if Covered(from, upTo, lost, connectedAt, r) && Shows(w, At(log, r)) != [] {
      assert Answered(w, log, d, r);
    }
  }

  lemma {:induction false} SameDeliveries(w: WatchSpec, log: Log, from: nat, start: nat, upTo: nat, lost: set<nat>, connectedAt: nat)
    requires from == start || from == connectedAt + 1 < start
    requires forall r: nat :: connectedAt < r < start && r <= upTo && Shows(w, At(log, r)) != [] ==> r in lost
    requires forall r: nat :: connectedAt < r && start <= r <= upTo && r in lost ==> Shows(w, At(log, r)) == []
    ensures Deliveries(w, log, from, upTo, lost, connectedAt) == Owed(w, log, start, upTo)
    decreases upTo
  {
    if upTo > 0 && from <= upTo {
      SameDeliveries(w, log, from, start, upTo - 1, lost, connectedAt);
      if upTo < start || Silent(lost, connectedAt, upTo) {
        var before := Deliveries(w, log, from, upTo - 1, lost, connectedAt);
        assert before + [] == before;
      }
    }
  }
}
