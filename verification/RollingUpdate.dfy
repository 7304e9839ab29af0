/** Rolling updates of a deployment: how far its replica sets are scaled at each turn. */
module RollingUpdate {
  import opened Options

  /** A replica set: how many pods it should have, how many its status reports available, and the
      largest size of the deployment when it was last scaled, 0 if none is recorded. */
  datatype ReplicaSet = ReplicaSet(name: nat, created: int, replicas: nat, available: nat, maxReplicas: nat)

  datatype Amount = Count(n: nat) | Percent(p: nat)

  datatype Deployment = Deployment(replicas: nat, surge: Amount, unavailable: Amount)

  function AtMost(a: int, b: int): int {
    if a < b then a else b
  }

  function AtLeast(a: int, b: int): int {
    if a < b then b else a
  }

  // ----- the bounds of a deployment -----

  function ScaledValue(amount: Amount, total: nat, roundUp: bool): nat {
    match amount
    case Count(n) => n
    case Percent(p) => if roundUp then (p * total + 99) / 100 else p * total / 100
  }

  /** The surge and the number of pods that may be missing, which are not both zero. */
  function ResolveFenceposts(d: Deployment): (r: (nat, nat))
    ensures r.0 + r.1 > 0
  {
    var surge, unavailable := ScaledValue(d.surge, d.replicas, true), ScaledValue(d.unavailable, d.replicas, false);
    if surge == 0 && unavailable == 0 then (surge, 1) else (surge, unavailable)
  }

  function MaxUnavailable(d: Deployment): (r: nat)
    ensures r <= d.replicas
  {
    if d.replicas == 0 then 0 else AtMost(ResolveFenceposts(d).1, d.replicas)
  }

  function MaxSurge(d: Deployment): nat {
    ScaledValue(d.surge, d.replicas, true)
  }

  function MinAvailable(d: Deployment): nat {
    d.replicas - MaxUnavailable(d)
  }

  /** What the bounds of a deployment come to: a surge in percent is rounded up, so that it is the
      least number of pods that is not below that share; pods that may be missing in percent are
      rounded down; numbers stand for themselves. Only when both come to none may one pod be missing. */
  lemma FencepostsMean(d: Deployment)
    ensures var (surge, unavailable) := ResolveFenceposts(d);
            && (d.surge.Count? ==> surge == d.surge.n)
            && (d.surge.Percent? ==> 100 * (surge - 1) < d.surge.p * d.replicas <= 100 * surge)
            && (d.unavailable.Count? ==> unavailable == if surge == 0 && d.unavailable.n == 0 then 1 else d.unavailable.n)
            && (d.unavailable.Percent? ==>
                  if surge == 0 && d.unavailable.p * d.replicas < 100 then unavailable == 1
                  else 100 * unavailable <= d.unavailable.p * d.replicas < 100 * (unavailable + 1))
            && MaxSurge(d) == surge
            && MinAvailable(d) == if unavailable < d.replicas then d.replicas - unavailable else 0
  {
    if d.surge.Percent? {
      RoundedUp(d.surge.p * d.replicas);
    }
    if d.unavailable.Percent? {
      RoundedDown(d.unavailable.p * d.replicas);
    }
  }

  lemma RoundedUp(share: nat)
    ensures 100 * ((share + 99) / 100 - 1) < share <= 100 * ((share + 99) / 100)
  {
  }

  lemma RoundedDown(share: nat)
    ensures 100 * (share / 100) <= share < 100 * (share / 100 + 1)
  {
  }

  // ----- sums over replica sets -----

  function Replicas(sets: seq<ReplicaSet>): nat {
    if sets == [] then 0 else sets[0].replicas + Replicas(sets[1..])
  }

  function Available(sets: seq<ReplicaSet>): nat {
    if sets == [] then 0 else sets[0].available + Available(sets[1..])
  }

  /** The available pods that a replica set is sure to keep. */
  function Keeps(rs: ReplicaSet): nat {
    AtMost(rs.available, rs.replicas)
  }

  function Serving(sets: seq<ReplicaSet>): nat {
    if sets == [] then 0 else Keeps(sets[0]) + Serving(sets[1..])
  }

  /** Pods reported available by a status that has not caught up with a smaller size. */
  function Stale(sets: seq<ReplicaSet>): nat {
    if sets == [] then 0 else sets[0].available - Keeps(sets[0]) + Stale(sets[1..])
  }

  function Unhealthy(sets: seq<ReplicaSet>): nat {
    if sets == [] then 0 else sets[0].replicas - Keeps(sets[0]) + Unhealthy(sets[1..])
  }

  predicate CaughtUp(sets: seq<ReplicaSet>) {
    forall i :: 0 <= i < |sets| ==> sets[i].available <= sets[i].replicas
  }

  lemma {:induction false} SumsAppend(a: seq<ReplicaSet>, b: seq<ReplicaSet>)
    ensures Replicas(a + b) == Replicas(a) + Replicas(b)
    ensures Available(a + b) == Available(a) + Available(b)
    ensures Serving(a + b) == Serving(a) + Serving(b)
    ensures Stale(a + b) == Stale(a) + Stale(b)
    ensures Unhealthy(a + b) == Unhealthy(a) + Unhealthy(b)
  {
    if a == [] {
      assert a + b == b;
    } else {
      assert (a + b)[0] == a[0] && (a + b)[1..] == a[1..] + b;
      SumsAppend(a[1..], b);
    }
  }

  lemma SumsCons(rs: ReplicaSet, rest: seq<ReplicaSet>)
    ensures Replicas([rs] + rest) == rs.replicas + Replicas(rest)
    ensures Available([rs] + rest) == rs.available + Available(rest)
    ensures Serving([rs] + rest) == Keeps(rs) + Serving(rest)
    ensures Unhealthy([rs] + rest) == rs.replicas - Keeps(rs) + Unhealthy(rest)
    ensures CaughtUp([rs] + rest) <==> rs.available <= rs.replicas && CaughtUp(rest)
  {
    assert ([rs] + rest)[0] == rs && ([rs] + rest)[1..] == rest;
    assert CaughtUp([rs] + rest) ==> CaughtUp(rest) by {
      assert forall i :: 0 <= i < |rest| ==> rest[i] == ([rs] + rest)[i + 1];
    }
  }

  lemma {:induction false} ServingAndStale(sets: seq<ReplicaSet>)
    ensures Available(sets) == Serving(sets) + Stale(sets)
    ensures Replicas(sets) == Serving(sets) + Unhealthy(sets)
    ensures Stale(sets) == 0 <==> CaughtUp(sets)
  {
    if sets != [] {
      ServingAndStale(sets[1..]);
      assert CaughtUp(sets) <==> sets[0].available <= sets[0].replicas && CaughtUp(sets[1..]) by {
        assert sets == [sets[0]] + sets[1..];
      }
    }
  }

  // ----- oldest first -----

  predicate Precedes(a: ReplicaSet, b: ReplicaSet) {
    a.created < b.created || (a.created == b.created && a.name <= b.name)
  }

  function Insert(rs: ReplicaSet, sorted: seq<ReplicaSet>): seq<ReplicaSet> {
    if sorted == [] || Precedes(rs, sorted[0]) then [rs] + sorted else [sorted[0]] + Insert(rs, sorted[1..])
  }

  function Sort(sets: seq<ReplicaSet>): seq<ReplicaSet> {
    if sets == [] then [] else Insert(sets[0], Sort(sets[1..]))
  }

  predicate Ordered(sets: seq<ReplicaSet>) {
    forall i, j :: 0 <= i < j < |sets| ==> Precedes(sets[i], sets[j])
  }

  lemma {:induction false} InsertFacts(rs: ReplicaSet, sorted: seq<ReplicaSet>)
    requires Ordered(sorted)
    ensures Ordered(Insert(rs, sorted)) && multiset(Insert(rs, sorted)) == multiset(sorted) + multiset{rs}
  {
    if sorted == [] || Precedes(rs, sorted[0]) {
    } else {
      InsertFacts(rs, sorted[1..]);
      var rest := Insert(rs, sorted[1..]);
      assert sorted == [sorted[0]] + sorted[1..];
      forall i | 0 <= i < |rest|
        ensures Precedes(sorted[0], rest[i])
      {
        assert rest[i] in multiset(rest);
        assert rest[i] == rs || rest[i] in sorted[1..];
      }
    }
  }

  /** Sorting puts the oldest first and keeps every replica set. */
  lemma {:induction false} SortFacts(sets: seq<ReplicaSet>)
    ensures Ordered(Sort(sets)) && multiset(Sort(sets)) == multiset(sets)
    ensures forall i, j :: 0 <= i < j < |Sort(sets)| ==> Sort(sets)[i].created <= Sort(sets)[j].created
  {
    if sets != [] {
      SortFacts(sets[1..]);
      InsertFacts(sets[0], Sort(sets[1..]));
      assert sets == [sets[0]] + sets[1..];
    }
  }

  lemma {:induction false} SumsInsert(rs: ReplicaSet, sorted: seq<ReplicaSet>)
    ensures Replicas(Insert(rs, sorted)) == rs.replicas + Replicas(sorted)
    ensures Available(Insert(rs, sorted)) == rs.available + Available(sorted)
    ensures Serving(Insert(rs, sorted)) == Keeps(rs) + Serving(sorted)
  {
    if sorted == [] || Precedes(rs, sorted[0]) {
      assert ([rs] + sorted)[1..] == sorted;
    } else {
      SumsInsert(rs, sorted[1..]);
      assert ([sorted[0]] + Insert(rs, sorted[1..]))[1..] == Insert(rs, sorted[1..]);
    }
  }

  lemma {:induction false} SumsSort(sets: seq<ReplicaSet>)
    ensures Replicas(Sort(sets)) == Replicas(sets) && Available(Sort(sets)) == Available(sets)
    ensures Serving(Sort(sets)) == Serving(sets) && Stale(Sort(sets)) == Stale(sets) && Unhealthy(Sort(sets)) == Unhealthy(sets)
  {
    if sets != [] {
      SumsSort(sets[1..]);
      SumsInsert(sets[0], Sort(sets[1..]));
    }
    ServingAndStale(sets);
    ServingAndStale(Sort(sets));
  }

  // ----- the two phases of scaling down -----

  datatype Failure = InvalidScale | WriteFailed

  /** What a phase did: the replica sets afterwards, the pods it took away, and the writes so far. */
  datatype Phase = Phase(sets: seq<ReplicaSet>, count: int, failure: Option<Failure>, writes: nat)

  /** The writes to the cluster that are refused, by their number. */
  type Refusals = set<nat>

  function Then(head: seq<ReplicaSet>, count: int, rest: Phase): Phase {
    Phase(head + rest.sets, count + rest.count, rest.failure, rest.writes)
  }

  /** Takes unhealthy pods away, oldest replica set first, at most `budget` of them. */
  function CleanUp(sets: seq<ReplicaSet>, budget: int, refused: Refusals, writes: nat): Phase {
    if sets == [] || budget <= 0 then Phase(sets, 0, None, writes)
    else
      var rs := sets[0];
      if rs.replicas == 0 || rs.replicas == rs.available then Then([rs], 0, CleanUp(sets[1..], budget, refused, writes))
      else if rs.available > rs.replicas then Phase(sets, 0, Some(InvalidScale), writes)
      else
        var k := AtMost(budget, rs.replicas - rs.available);
        if writes in refused then Phase(sets, 0, Some(WriteFailed), writes + 1)
        else Then([rs.(replicas := rs.replicas - k)], k, CleanUp(sets[1..], budget - k, refused, writes + 1))
  }

  /** Takes pods away, oldest replica set first, at most `budget` of them. */
  function ScaleDown(sets: seq<ReplicaSet>, budget: int, refused: Refusals, writes: nat): Phase {
    if sets == [] || budget <= 0 then Phase(sets, 0, None, writes)
    else
      var rs := sets[0];
      if rs.replicas == 0 then Then([rs], 0, ScaleDown(sets[1..], budget, refused, writes))
      else
        var k := AtMost(rs.replicas, budget);
        if writes in refused then Phase(sets, 0, Some(WriteFailed), writes + 1)
        else Then([rs.(replicas := rs.replicas - k)], k, ScaleDown(sets[1..], budget - k, refused, writes + 1))
  }

  /** Only sizes have changed, and none has grown. */
  predicate Shrunk(before: seq<ReplicaSet>, after: seq<ReplicaSet>) {
    && |before| == |after|
    && forall i :: 0 <= i < |before| ==> after[i] == before[i].(replicas := after[i].replicas) && after[i].replicas <= before[i].replicas
  }

  lemma ShrunkCons(a: ReplicaSet, b: ReplicaSet, before: seq<ReplicaSet>, after: seq<ReplicaSet>)
    requires Shrunk(before, after) && b == a.(replicas := b.replicas) && b.replicas <= a.replicas
    ensures Shrunk([a] + before, [b] + after)
  {
  }

  lemma {:induction false} CleanUpShrinks(sets: seq<ReplicaSet>, budget: int, refused: Refusals, writes: nat)
    ensures Shrunk(sets, CleanUp(sets, budget, refused, writes).sets)
  {
    hide Shrunk;
    if sets == [] || budget <= 0 {
      ShrunkSame(sets);
    } else {
      var rs, rest := sets[0], sets[1..];
      assert sets == [rs] + rest;
      if rs.replicas == 0 || rs.replicas == rs.available {
        CleanUpShrinks(rest, budget, refused, writes);
        ShrunkCons(rs, rs, rest, CleanUp(rest, budget, refused, writes).sets);
      } else if rs.available <= rs.replicas && writes !in refused {
        var k := AtMost(budget, rs.replicas - rs.available);
        CleanUpShrinks(rest, budget - k, refused, writes + 1);
        ShrunkCons(rs, rs.(replicas := rs.replicas - k), rest, CleanUp(rest, budget - k, refused, writes + 1).sets);
      } else {
        ShrunkSame(sets);
      }
    }
  }

  lemma ShrunkSame(sets: seq<ReplicaSet>)
    ensures Shrunk(sets, sets)
  {
  }

  /** A clean-up within its budget, which takes every unhealthy pod that fits when nothing fails, and
      none that is available. */
  predicate Cleaned(before: seq<ReplicaSet>, p: Phase, budget: int) {
    && p.count == Replicas(before) - Replicas(p.sets) && 0 <= p.count <= AtLeast(0, budget)
    && Serving(p.sets) == Serving(before) && Available(p.sets) == Available(before)
    && (p.failure.None? && CaughtUp(before) ==> p.count == AtMost(AtLeast(0, budget), Unhealthy(before)))
  }

  lemma CleanedOne(rs: ReplicaSet, k: int, rest: seq<ReplicaSet>, p: Phase, budget: int)
    requires budget > 0 && Cleaned(rest, p, budget - k)
    requires if rs.replicas == 0 || rs.replicas == rs.available then k == 0
             else rs.available <= rs.replicas && k == AtMost(budget, rs.replicas - rs.available)
    ensures Cleaned([rs] + rest, Then([rs.(replicas := rs.replicas - k)], k, p), budget)
  {
    hide CaughtUp, Replicas, Available, Serving, Unhealthy;
    SumsCons(rs, rest);
    SumsCons(rs.(replicas := rs.replicas - k), p.sets);
  }

  lemma {:induction false} CleanUpExactly(sets: seq<ReplicaSet>, budget: int, refused: Refusals, writes: nat)
    ensures Cleaned(sets, CleanUp(sets, budget, refused, writes), budget)
  {
    hide Cleaned;
    if sets == [] || budget <= 0 {
      NothingCleaned(sets, budget, Phase(sets, 0, None, writes));
    } else {
      var rs, rest := sets[0], sets[1..];
      assert sets == [rs] + rest;
      if rs.replicas == 0 || rs.replicas == rs.available {
        CleanUpExactly(rest, budget, refused, writes);
        assert rs.(replicas := rs.replicas - 0) == rs;
        CleanedOne(rs, 0, rest, CleanUp(rest, budget, refused, writes), budget);
        assert CleanUp(sets, budget, refused, writes) == Then([rs], 0, CleanUp(rest, budget, refused, writes));
      } else if rs.available <= rs.replicas && writes !in refused {
        var k := AtMost(budget, rs.replicas - rs.available);
        CleanUpExactly(rest, budget - k, refused, writes + 1);
        var less := rs.(replicas := rs.replicas - k);
        CleanedOne(rs, k, rest, CleanUp(rest, budget - k, refused, writes + 1), budget);
        assert CleanUp(sets, budget, refused, writes) == Then([less], k, CleanUp(rest, budget - k, refused, writes + 1));
      } else {
        NothingCleaned(sets, budget, CleanUp(sets, budget, refused, writes));
      }
    }
  }

  lemma NothingCleaned(sets: seq<ReplicaSet>, budget: int, p: Phase)
    requires p.sets == sets && p.count == 0 && (p.failure.Some? || sets == [] || budget <= 0)
    ensures Cleaned(sets, p, budget)
  {
  }

  /** Oldest first: a replica set has lost pods only if every older one has none left. */
  predicate OldestFirst(before: seq<ReplicaSet>, after: seq<ReplicaSet>) {
    |before| == |after| &&
    forall i, j :: 0 <= i < j < |before| && after[j].replicas < before[j].replicas ==> after[i].replicas == 0
  }

  lemma {:induction false} ScaleDownShrinks(sets: seq<ReplicaSet>, budget: int, refused: Refusals, writes: nat)
    ensures var p := ScaleDown(sets, budget, refused, writes);
            Shrunk(sets, p.sets) && OldestFirst(sets, p.sets)
  {
    hide Shrunk, OldestFirst;
    if sets == [] || budget <= 0 {
      ShrunkSame(sets);
      OldestFirstSame(sets);
    } else {
      var rs, rest := sets[0], sets[1..];
      assert sets == [rs] + rest;
      if rs.replicas == 0 {
        ScaleDownShrinks(rest, budget, refused, writes);
        ShrunkCons(rs, rs, rest, ScaleDown(rest, budget, refused, writes).sets);
        OldestFirstCons(rs, rs, rest, ScaleDown(rest, budget, refused, writes).sets);
      } else if writes !in refused {
        var k := AtMost(rs.replicas, budget);
        var less := rs.(replicas := rs.replicas - k);
        ScaleDownShrinks(rest, budget - k, refused, writes + 1);
        ShrunkCons(rs, less, rest, ScaleDown(rest, budget - k, refused, writes + 1).sets);
        OldestFirstCons(rs, less, rest, ScaleDown(rest, budget - k, refused, writes + 1).sets);
      } else {
        ShrunkSame(sets);
        OldestFirstSame(sets);
      }
    }
  }

  /** Unhealthy pods of older replica sets first: one has lost pods only if no older one has any left. */
  predicate UnhealthyFirst(before: seq<ReplicaSet>, after: seq<ReplicaSet>) {
    |before| == |after| &&
    forall i, j :: 0 <= i < j < |before| && after[j].replicas < before[j].replicas ==> after[i].replicas <= after[i].available
  }

  lemma UnhealthyFirstSame(sets: seq<ReplicaSet>)
    ensures UnhealthyFirst(sets, sets)
  {
  }

  lemma UnhealthyFirstCons(rs: ReplicaSet, less: ReplicaSet, rest: seq<ReplicaSet>, after: seq<ReplicaSet>)
    requires UnhealthyFirst(rest, after) && (after == rest || less.replicas <= less.available)
    ensures UnhealthyFirst([rs] + rest, [less] + after)
  {
    var all, now := [rs] + rest, [less] + after;
    forall i, j | 0 <= i < j < |all| && now[j].replicas < all[j].replicas
      ensures now[i].replicas <= now[i].available
    {
      assert now[j] == after[j - 1] && all[j] == rest[j - 1];
      if i > 0 {
        assert now[i] == after[i - 1];
      }
    }
  }

  lemma {:induction false} UnhealthyGoFirst(sets: seq<ReplicaSet>, budget: int, refused: Refusals, writes: nat)
    ensures var p := CleanUp(sets, budget, refused, writes);
            UnhealthyFirst(sets, p.sets) && (budget <= 0 ==> p.sets == sets)
  {
    hide UnhealthyFirst;
    UnhealthyFirstSame(sets);
    if sets != [] && budget > 0 {
      var rs, rest := sets[0], sets[1..];
      assert sets == [rs] + rest;
      if rs.replicas == 0 || rs.replicas == rs.available {
        UnhealthyGoFirst(rest, budget, refused, writes);
        UnhealthyFirstCons(rs, rs, rest, CleanUp(rest, budget, refused, writes).sets);
      } else if rs.available <= rs.replicas && writes !in refused {
        var k := AtMost(budget, rs.replicas - rs.available);
        var less := rs.(replicas := rs.replicas - k);
        UnhealthyGoFirst(rest, budget - k, refused, writes + 1);
        UnhealthyFirstCons(rs, less, rest, CleanUp(rest, budget - k, refused, writes + 1).sets);
      }
    }
  }

  lemma OldestFirstSame(sets: seq<ReplicaSet>)
    ensures OldestFirst(sets, sets)
  {
  }

  lemma OldestFirstCons(a: ReplicaSet, b: ReplicaSet, before: seq<ReplicaSet>, after: seq<ReplicaSet>)
    requires OldestFirst(before, after) && (b.replicas == 0 || after == before)
    ensures OldestFirst([a] + before, [b] + after)
  {
  }

  /** A scale-down within its budget, which uses it up when nothing fails. */
  predicate Scaled(before: seq<ReplicaSet>, p: Phase, budget: int) {
    && p.count == Replicas(before) - Replicas(p.sets) && 0 <= p.count <= AtLeast(0, budget)
    && Serving(p.sets) >= Serving(before) - p.count
    && (p.failure.None? ==> p.count == AtMost(AtLeast(0, budget), Replicas(before)))
  }

  lemma ScaledOne(rs: ReplicaSet, k: int, rest: seq<ReplicaSet>, p: Phase, budget: int)
    requires budget > 0 && Scaled(rest, p, budget - k) && k == AtMost(rs.replicas, budget)
    ensures Scaled([rs] + rest, Then([rs.(replicas := rs.replicas - k)], k, p), budget)
  {
    hide CaughtUp, Replicas, Available, Serving, Unhealthy;
    SumsCons(rs, rest);
    SumsCons(rs.(replicas := rs.replicas - k), p.sets);
  }

  lemma NothingScaled(sets: seq<ReplicaSet>, budget: int, p: Phase)
    requires p.sets == sets && p.count == 0 && (p.failure.Some? || sets == [] || budget <= 0)
    ensures Scaled(sets, p, budget)
  {
  }

  lemma {:induction false} ScaleDownExactly(sets: seq<ReplicaSet>, budget: int, refused: Refusals, writes: nat)
    ensures Scaled(sets, ScaleDown(sets, budget, refused, writes), budget)
  {
    hide Scaled;
    if sets == [] || budget <= 0 {
      NothingScaled(sets, budget, Phase(sets, 0, None, writes));
    } else {
      var rs, rest := sets[0], sets[1..];
      assert sets == [rs] + rest;
      if rs.replicas == 0 {
        ScaleDownExactly(rest, budget, refused, writes);
        ScaledOne(rs, 0, rest, ScaleDown(rest, budget, refused, writes), budget);
      } else if writes !in refused {
        var k := AtMost(rs.replicas, budget);
        ScaleDownExactly(rest, budget - k, refused, writes + 1);
        ScaledOne(rs, k, rest, ScaleDown(rest, budget - k, refused, writes + 1), budget);
      } else {
        NothingScaled(sets, budget, ScaleDown(sets, budget, refused, writes));
      }
    }
  }

  /** Scales the old replica sets down to what the new one allows. */
  function ScaleDownForUpdate(olds: seq<ReplicaSet>, latest: ReplicaSet, d: Deployment, refused: Refusals, writes: nat): Phase {
    var budget := Available(olds + [latest]) - MinAvailable(d);
    if budget <= 0 then Phase(olds, 0, None, writes) else ScaleDown(Sort(olds), budget, refused, writes)
  }

  /** The pods that a turn may take from the old replica sets. */
  function MaxScaledDown(all: seq<ReplicaSet>, latest: ReplicaSet, d: Deployment): int {
    Replicas(all) - MinAvailable(d) - (latest.replicas - latest.available)
  }

  /** A whole turn on the old replica sets. */
  function ReconcileOld(all: seq<ReplicaSet>, olds: seq<ReplicaSet>, latest: ReplicaSet, d: Deployment, refused: Refusals, writes: nat): Phase {
    if Replicas(olds) == 0 || MaxScaledDown(all, latest, d) <= 0 then Phase(olds, 0, None, writes)
    else
      var cleaned := CleanUp(Sort(olds), MaxScaledDown(all, latest, d), refused, writes);
      if cleaned.failure.Some? then cleaned
      else Then([], cleaned.count, ScaleDownForUpdate(cleaned.sets, latest, d, refused, cleaned.writes))
  }

  lemma LastSums(sets: seq<ReplicaSet>, latest: ReplicaSet)
    ensures Serving(sets + [latest]) == Serving(sets) + Keeps(latest)
    ensures Available(sets + [latest]) == Available(sets) + latest.available
    ensures Available(sets + [latest]) == Serving(sets + [latest]) + Stale(sets + [latest])
  {
    SumsAppend(sets, [latest]);
    ServingAndStale(sets + [latest]);
  }

  lemma ScaleDownFloor(olds: seq<ReplicaSet>, latest: ReplicaSet, d: Deployment, refused: Refusals, writes: nat)
    ensures Serving(ScaleDownForUpdate(olds, latest, d, refused, writes).sets + [latest]) >=
            AtMost(Serving(olds + [latest]), MinAvailable(d) - Stale(olds + [latest]))
  {
    hide Sort, ScaleDown, Replicas, Available, Serving, Stale, Unhealthy, CaughtUp, MinAvailable;
    var budget := Available(olds + [latest]) - MinAvailable(d);
    ScaleDownExactly(Sort(olds), budget, refused, writes);
    SumsSort(olds);
    LastSums(olds, latest);
    LastSums(ScaleDownForUpdate(olds, latest, d, refused, writes).sets, latest);
  }

  /** Whatever is refused, a turn leaves at least the required number of available pods, or as many
      as there were, but for pods that a status reports though their replica set has shrunk. */
  lemma FloorKept(all: seq<ReplicaSet>, olds: seq<ReplicaSet>, latest: ReplicaSet, d: Deployment, refused: Refusals, writes: nat)
    ensures var after := ReconcileOld(all, olds, latest, d, refused, writes).sets + [latest];
            Serving(after) >= AtMost(Serving(olds + [latest]), MinAvailable(d) - Stale(olds + [latest]))
  {
    hide Sort, CleanUp, ScaleDownForUpdate, Available, Serving, Stale, Unhealthy, CaughtUp, MinAvailable, MaxScaledDown;
    if Replicas(olds) != 0 && MaxScaledDown(all, latest, d) > 0 {
      var cleaned := CleanUp(Sort(olds), MaxScaledDown(all, latest, d), refused, writes);
      SumsSort(olds);
      CleanUpExactly(Sort(olds), MaxScaledDown(all, latest, d), refused, writes);
      LastSums(olds, latest);
      LastSums(cleaned.sets, latest);
      ScaleDownFloor(cleaned.sets, latest, d, refused, cleaned.writes);
      var scaled := ScaleDownForUpdate(cleaned.sets, latest, d, refused, cleaned.writes);
      assert [] + scaled.sets == scaled.sets;
    }
  }

  /** Each phase takes at most its budget; a turn in which nothing fails, on statuses that have caught
      up, first takes every unhealthy pod that it may, then every pod above the floor. */
  lemma BudgetsKept(all: seq<ReplicaSet>, olds: seq<ReplicaSet>, latest: ReplicaSet, d: Deployment, refused: Refusals, writes: nat)
    requires Replicas(olds) > 0 && Replicas(all) - MinAvailable(d) - (latest.replicas - latest.available) > 0
    ensures var unneeded := Replicas(all) - MinAvailable(d) - (latest.replicas - latest.available);
            var cleaned := CleanUp(Sort(olds), unneeded, refused, writes);
            var scaled := ScaleDownForUpdate(cleaned.sets, latest, d, refused, cleaned.writes);
            var done := ReconcileOld(all, olds, latest, d, refused, writes);
            && Replicas(done.sets) == Replicas(olds) - done.count
            && 0 <= cleaned.count <= unneeded
            && 0 <= scaled.count <= AtLeast(0, Available(olds + [latest]) - MinAvailable(d))
            && (done.failure.None? && CaughtUp(olds) ==>
                  && cleaned.count == AtMost(unneeded, Unhealthy(olds))
                  && scaled.count == AtMost(AtLeast(0, Available(olds + [latest]) - MinAvailable(d)), Replicas(olds) - cleaned.count)
                  && done.count == cleaned.count + scaled.count)
  {
    hide Sort, CleanUp, ScaleDown, Available, Serving, Stale, Unhealthy, CaughtUp, MinAvailable, Replicas;
    var cleaned := CleanUp(Sort(olds), MaxScaledDown(all, latest, d), refused, writes);
    SumsSort(olds);
    ServingAndStale(olds);
    ServingAndStale(Sort(olds));
    CleanUpExactly(Sort(olds), MaxScaledDown(all, latest, d), refused, writes);
    LastSums(olds, latest);
    LastSums(cleaned.sets, latest);
    SumsSort(cleaned.sets);
    ScaleDownExactly(Sort(cleaned.sets), Available(cleaned.sets + [latest]) - MinAvailable(d), refused, cleaned.writes);
    var scaled := ScaleDownForUpdate(cleaned.sets, latest, d, refused, cleaned.writes);
    assert [] + scaled.sets == scaled.sets;
  }

  // ----- a rollout -----

  datatype State = State(olds: seq<ReplicaSet>, latest: ReplicaSet)

  function All(s: State): seq<ReplicaSet> {
    s.olds + [s.latest]
  }

  /** How large the new replica set may grow. */
  function NewReplicas(all: seq<ReplicaSet>, latest: ReplicaSet, d: Deployment): int {
    var maxTotal := d.replicas + MaxSurge(d);
    if Replicas(all) >= maxTotal then latest.replicas
    else latest.replicas + AtMost(maxTotal - Replicas(all), d.replicas - latest.replicas)
  }

  /** The size that the new replica set is given. */
  function NewSize(s: State, d: Deployment): nat {
    if s.latest.replicas >= d.replicas then d.replicas else NewReplicas(All(s), s.latest, d)
  }

  predicate MayGrowTo(s: State, d: Deployment, size: int) {
    && s.latest.replicas <= size <= d.replicas
    && (size == s.latest.replicas || Replicas(All(s)) - s.latest.replicas + size <= d.replicas + MaxSurge(d))
  }

  /** The new replica set is given the largest size that the deployment and its surge leave room for; if
      it is too large, the size of the deployment. */
  lemma NewSizeExactly(s: State, d: Deployment, size: int)
    ensures s.latest.replicas >= d.replicas ==> NewSize(s, d) == d.replicas
    ensures s.latest.replicas < d.replicas ==> MayGrowTo(s, d, NewSize(s, d)) && (MayGrowTo(s, d, size) ==> size <= NewSize(s, d))
  {
    hide MaxSurge, Replicas;
  }

  /** The replica sets of size zero, or the others. */
  function Sized(sets: seq<ReplicaSet>, zero: bool): seq<ReplicaSet> {
    if sets == [] then []
    else
      var rest := Sized(sets[1..], zero);
      if (sets[0].replicas == 0) == zero then [sets[0]] + rest else rest
  }

  /** One turn of a rolling update: the new replica set first; the old ones if it stayed as it was. */
  function Rollout(s: State, d: Deployment, refused: Refusals, writes: nat): State {
    var size := NewSize(s, d);
    if size != s.latest.replicas then (if writes in refused then s else s.(latest := s.latest.(replicas := size)))
    else s.(olds := ReconcileOld(All(s), Sized(s.olds, false), s.latest, d, refused, writes).sets + Sized(s.olds, true))
  }

  lemma {:induction false} SizedSums(sets: seq<ReplicaSet>)
    ensures Replicas(Sized(sets, false)) == Replicas(sets) && Replicas(Sized(sets, true)) == 0
    ensures Serving(Sized(sets, false)) == Serving(sets) && Serving(Sized(sets, true)) == 0
  {
    if sets == [] {
    } else {
      hide Replicas, Serving, Available, Unhealthy, CaughtUp;
      var rs, rest := sets[0], sets[1..];
      assert sets == [rs] + rest;
      SizedSums(rest);
      SumsCons(rs, rest);
      SumsCons(rs, Sized(rest, false));
      SumsCons(rs, Sized(rest, true));
    }
  }

  /** What the status of a replica set that a turn may scale reports beyond its size. */
  function StaleSizes(s: State): nat {
    Stale(Sized(s.olds, false) + [s.latest])
  }

  lemma AllSums(olds: seq<ReplicaSet>, latest: ReplicaSet)
    ensures Serving(olds + [latest]) == Serving(olds) + Keeps(latest)
    ensures Replicas(olds + [latest]) == Replicas(olds) + latest.replicas
  {
    SumsAppend(olds, [latest]);
  }

  /** The new replica set grows towards its size, or shrinks to it. */
  lemma NewSizeGrows(s: State, d: Deployment)
    ensures if s.latest.replicas < d.replicas then s.latest.replicas <= NewSize(s, d) <= d.replicas else NewSize(s, d) == d.replicas
  {
  }

  /** A turn never takes the available pods below the floor that the deployment asks for. */
  lemma RolloutFloor(s: State, d: Deployment, refused: Refusals, writes: nat)
    ensures Serving(All(Rollout(s, d, refused, writes))) >= AtMost(Serving(All(s)), MinAvailable(d) - StaleSizes(s))
  {
    NewSizeGrows(s, d);
    hide NewReplicas, NewSize, ReconcileOld, Sized, Serving, Stale, Replicas;
    AllSums(s.olds, s.latest);
    var after := Rollout(s, d, refused, writes);
    AllSums(after.olds, after.latest);
    if NewSize(s, d) == s.latest.replicas {
      hide MinAvailable;
      var active, rest := Sized(s.olds, false), Sized(s.olds, true);
      var p := ReconcileOld(All(s), active, s.latest, d, refused, writes);
      FloorKept(All(s), active, s.latest, d, refused, writes);
      SizedSums(s.olds);
      AllSums(active, s.latest);
      AllSums(p.sets, s.latest);
      SumsAppend(p.sets, rest);
    }
  }

  /** A turn never takes the pods above what the surge allows. */
  lemma RolloutCeiling(s: State, d: Deployment, refused: Refusals, writes: nat)
    ensures Replicas(All(Rollout(s, d, refused, writes))) <= AtLeast(Replicas(All(s)), d.replicas + MaxSurge(d))
  {
    hide ReconcileOld, Sized, Serving, Replicas, MaxSurge;
    AllSums(s.olds, s.latest);
    var after := Rollout(s, d, refused, writes);
    AllSums(after.olds, after.latest);
    if NewSize(s, d) == s.latest.replicas {
      ReconcileShrinks(All(s), Sized(s.olds, false), s.latest, d, refused, writes);
      SizedSums(s.olds);
      SumsAppend(ReconcileOld(All(s), Sized(s.olds, false), s.latest, d, refused, writes).sets, Sized(s.olds, true));
    }
  }

  lemma ReconcileShrinks(all: seq<ReplicaSet>, olds: seq<ReplicaSet>, latest: ReplicaSet, d: Deployment, refused: Refusals, writes: nat)
    ensures var p := ReconcileOld(all, olds, latest, d, refused, writes);
            p.count >= 0 && Replicas(p.sets) == Replicas(olds) - p.count
  {
    hide Sort, CleanUp, ScaleDownForUpdate, Serving, Available, Unhealthy, CaughtUp, MinAvailable, MaxScaledDown;
    if Replicas(olds) != 0 && MaxScaledDown(all, latest, d) > 0 {
      hide Replicas;
      var cleaned := CleanUp(Sort(olds), MaxScaledDown(all, latest, d), refused, writes);
      SumsSort(olds);
      CleanUpExactly(Sort(olds), MaxScaledDown(all, latest, d), refused, writes);
      ScaleDownShrinksSum(cleaned.sets, latest, d, refused, cleaned.writes);
      var scaled := ScaleDownForUpdate(cleaned.sets, latest, d, refused, cleaned.writes);
      assert [] + scaled.sets == scaled.sets;
    }
  }

  lemma ScaleDownShrinksSum(olds: seq<ReplicaSet>, latest: ReplicaSet, d: Deployment, refused: Refusals, writes: nat)
    ensures var p := ScaleDownForUpdate(olds, latest, d, refused, writes);
            p.count >= 0 && Replicas(p.sets) == Replicas(olds) - p.count
  {
    hide Sort, ScaleDown, Serving, Available, MinAvailable, Replicas;
    SumsSort(olds);
    ScaleDownExactly(Sort(olds), Available(olds + [latest]) - MinAvailable(d), refused, writes);
  }

  /** A turn of the controller, or new statuses: pods that are to be kept stay available. */
  datatype Step = Turn(refused: Refusals, writes: nat) | Statuses(after: State)

  predicate Updates(before: seq<ReplicaSet>, after: seq<ReplicaSet>) {
    && |before| == |after|
    && forall i :: 0 <= i < |before| ==> after[i] == before[i].(available := after[i].available) && Keeps(before[i]) <= Keeps(after[i])
  }

  /** Turns are taken on statuses that have caught up with the sizes. */
  predicate Takes(s: State, d: Deployment, step: Step, t: State) {
    match step
    case Turn(refused, writes) => StaleSizes(s) == 0 && t == Rollout(s, d, refused, writes)
    case Statuses(after) => t == after && Updates(All(s), All(t))
  }

  lemma {:induction false} UpdatesSums(before: seq<ReplicaSet>, after: seq<ReplicaSet>)
    requires Updates(before, after)
    ensures Replicas(after) == Replicas(before) && Serving(after) >= Serving(before)
  {
    if before != [] {
      assert Updates(before[1..], after[1..]);
      UpdatesSums(before[1..], after[1..]);
    }
  }

  predicate Run(d: Deployment, states: seq<State>, steps: seq<Step>) {
    && |states| == |steps| + 1
    && forall i :: 0 <= i < |steps| ==> Takes(states[i], d, steps[i], states[i + 1])
  }

  /** Throughout a rollout, whatever writes are refused, the available pods stay at the floor, or
      where they were below it, and the pods stay at the ceiling, or where they were above it. */
  lemma {:induction false} RolloutIsSafe(d: Deployment, states: seq<State>, steps: seq<Step>, n: nat)
    requires Run(d, states, steps) && n <= |steps|
    ensures Serving(All(states[n])) >= AtMost(Serving(All(states[0])), MinAvailable(d))
    ensures Replicas(All(states[n])) <= AtLeast(Replicas(All(states[0])), d.replicas + MaxSurge(d))
  {
    hide Serving, Replicas, MinAvailable, MaxSurge, Rollout, All, StaleSizes, Updates;
    if n > 0 {
      RolloutIsSafe(d, states, steps, n - 1);
      var s := states[n - 1];
      assert Takes(s, d, steps[n - 1], states[n]);
      match steps[n - 1] {
        case Turn(refused, writes) =>
          RolloutFloor(s, d, refused, writes);
          RolloutCeiling(s, d, refused, writes);
        case Statuses(after) => UpdatesSums(All(s), All(after));
      }
    }
  }

  /** The floor does not hold on statuses that have not caught up: three pods are asked for and none
      may be missing, two are kept available before the turn and one after it. */
  lemma StaleStatusExample()
    ensures var d := Deployment(3, Count(1), Count(0));
            var s := State([ReplicaSet(1, 1, 2, 0, 0), ReplicaSet(2, 2, 1, 5, 0)], ReplicaSet(3, 3, 3, 1, 0));
            Serving(All(s)) == 2 && Serving(All(Rollout(s, d, {}, 0))) == 1 && MinAvailable(d) == 3
  {
    var a, b, c := ReplicaSet(1, 1, 2, 0, 0), ReplicaSet(2, 2, 1, 5, 0), ReplicaSet(3, 3, 3, 1, 0);
    var a0, b0 := a.(replicas := 0), b.(replicas := 0);
    hide Serving, Replicas, Available, Sized, ReconcileOld;
    TwoSums(a, b, c);
    TwoSums(a0, b0, c);
    TwoSets(a, b);
    StaleTurn();
    assert [a0, b0] + [] == [a0, b0];
  }

  /** The floor under stale statuses is the best one: for every floor and every stale amount up to it
      there is a turn that takes exactly that many available pods too many. */
  lemma StaleFloorAttained(floor: nat, stale: nat)
    requires 0 < floor && stale <= floor
    ensures var d := Deployment(floor, Count(1), Count(0));
            var s := State([ReplicaSet(1, 1, floor + 1, floor + 1, 0)], ReplicaSet(2, 2, 0, stale, 0));
            && MinAvailable(d) == floor && StaleSizes(s) == stale && Serving(All(s)) > floor
            && Serving(All(Rollout(s, d, {}, 0))) == floor - stale
  {
    var d := Deployment(floor, Count(1), Count(0));
    var oldest, latest := ReplicaSet(1, 1, floor + 1, floor + 1, 0), ReplicaSet(2, 2, 0, stale, 0);
    var left, budget := oldest.(replicas := floor - stale), stale + 1;
    OneSums(oldest, latest);
    OneSums(left, latest);
    hide Serving, Replicas, Available, Stale;
    assert [oldest][1..] == [] && Sort([]) == [] && Sized([], true) == Sized([], false) == [];
    assert CleanUp([], budget, {}, 0) == Phase([], 0, None, 0) && ScaleDown([], 0, {}, 1) == Phase([], 0, None, 1);
    assert Sized([oldest], false) == [oldest] && Sized([oldest], true) == [];
    assert Sort([oldest]) == [oldest] && MaxScaledDown([oldest] + [latest], latest, d) == budget;
    assert CleanUp([oldest], budget, {}, 0) == Phase([oldest] + [], 0, None, 0);
    assert [oldest] + [] == [oldest] && [left] + [] == [left] && [] + [left] == [left];
    assert ScaleDown([oldest], budget, {}, 0) == Phase([left] + [], budget + 0, None, 1);
    hide Sort, CleanUp, ScaleDown, Sized;
    assert ReconcileOld([oldest] + [latest], [oldest], latest, d, {}, 0).sets == [left];
  }

  lemma OneSums(rs: ReplicaSet, latest: ReplicaSet)
    ensures Replicas([rs]) == rs.replicas && Replicas([rs] + [latest]) == rs.replicas + latest.replicas
    ensures Available([rs] + [latest]) == rs.available + latest.available
    ensures Serving([rs] + [latest]) == Keeps(rs) + Keeps(latest)
    ensures Stale([rs] + [latest]) == rs.available - Keeps(rs) + latest.available - Keeps(latest)
  {
    SumsAppend([rs], [latest]);
    assert [rs][1..] == [] && [latest][1..] == [];
  }

  lemma StaleTurn()
    ensures var a, b, c := ReplicaSet(1, 1, 2, 0, 0), ReplicaSet(2, 2, 1, 5, 0), ReplicaSet(3, 3, 3, 1, 0);
            ReconcileOld([a, b] + [c], [a, b], c, Deployment(3, Count(1), Count(0)), {}, 0).sets == [a.(replicas := 0), b.(replicas := 0)]
  {
    var d := Deployment(3, Count(1), Count(0));
    var a, b, c := ReplicaSet(1, 1, 2, 0, 0), ReplicaSet(2, 2, 1, 5, 0), ReplicaSet(3, 3, 3, 1, 0);
    var a1, a0, b0 := a.(replicas := 1), a.(replicas := 0), b.(replicas := 0);
    hide Serving, Replicas, Available, Sized, Sort, CleanUp, ScaleDown;
    TwoSums(a, b, c);
    TwoSums(a1, b, c);
    SortTwo(a, b);
    SortTwo(a1, b);
    CleanUpTwo(a, b, {});
    ScaleDownTwo(a1, b, {});
    assert MaxScaledDown([a, b] + [c], c, d) == 1;
    assert ScaleDownForUpdate([a1, b], c, d, {}, 1) == Phase([a0, b0], 2, None, 3);
    assert [] + [a0, b0] == [a0, b0];
  }

  lemma TwoSums(a: ReplicaSet, b: ReplicaSet, c: ReplicaSet)
    ensures Replicas([a, b]) == a.replicas + b.replicas && Replicas([a, b] + [c]) == a.replicas + b.replicas + c.replicas
    ensures Available([a, b] + [c]) == a.available + b.available + c.available
    ensures Serving([a, b] + [c]) == Keeps(a) + Keeps(b) + Keeps(c)
  {
    assert [a, b] == [a] + [b];
    SumsCons(a, [b]);
    SumsAppend([a, b], [c]);
  }

  lemma TwoSets(a: ReplicaSet, b: ReplicaSet)
    requires a.replicas > 0 && b.replicas > 0 && Precedes(a, b)
    ensures Sized([a, b], false) == [a, b] && Sized([a, b], true) == [] && Sort([a, b]) == [a, b]
  {
    assert [b][1..] == [] && [a, b][1..] == [b];
    assert Sized([b], false) == [b] && Sized([b], true) == [];
    SortTwo(a, b);
  }

  lemma SortTwo(a: ReplicaSet, b: ReplicaSet)
    requires Precedes(a, b)
    ensures Sort([a, b]) == [a, b]
  {
    assert [b][1..] == [] && [a, b][1..] == [b];
    assert Sort([b]) == [b];
  }

  lemma ScaleDownTwo(a: ReplicaSet, b: ReplicaSet, refused: Refusals)
    requires a.replicas == b.replicas == 1 && 1 !in refused && 2 !in refused
    ensures ScaleDown([a, b], 3, refused, 1) == Phase([a.(replicas := 0), b.(replicas := 0)], 2, None, 3)
  {
    assert [b][1..] == [] && [a, b][1..] == [b];
    assert ScaleDown([], 1, refused, 3) == Phase([], 0, None, 3);
    assert ScaleDown([b], 2, refused, 2) == Phase([b.(replicas := 0)], 1, None, 3);
  }

  lemma CleanUpTwo(a: ReplicaSet, b: ReplicaSet, refused: Refusals)
    requires a.replicas > a.available && 0 !in refused
    ensures CleanUp([a, b], 1, refused, 0) == Phase([a.(replicas := a.replicas - 1), b], 1, None, 1)
  {
    assert [a, b][1..] == [b];
    assert CleanUp([b], 0, refused, 1) == Phase([b], 0, None, 1);
  }

  // ----- progress -----

  predicate Healthy(sets: seq<ReplicaSet>) {
    forall i :: 0 <= i < |sets| ==> sets[i].available == sets[i].replicas
  }

  predicate Complete(s: State, d: Deployment) {
    Replicas(s.olds) == 0 && s.latest.replicas == d.replicas
  }

  function PodsToMove(s: State, d: Deployment): nat {
    Replicas(s.olds) + if s.latest.replicas < d.replicas then d.replicas - s.latest.replicas else s.latest.replicas - d.replicas
  }

  function AllReady(sets: seq<ReplicaSet>): seq<ReplicaSet> {
    seq(|sets|, i requires 0 <= i < |sets| => sets[i].(available := sets[i].replicas))
  }

  /** A turn in which no write is refused, after which every pod becomes available. */
  function HealthyTurn(s: State, d: Deployment): State {
    var t := Rollout(s, d, {}, 0);
    State(AllReady(t.olds), t.latest.(available := t.latest.replicas))
  }

  lemma {:induction false} HealthySums(sets: seq<ReplicaSet>)
    requires Healthy(sets)
    ensures Available(sets) == Replicas(sets) && Unhealthy(sets) == 0 && CaughtUp(sets)
  {
    if sets != [] {
      assert Healthy(sets[1..]);
      HealthySums(sets[1..]);
      ServingAndStale(sets);
      ServingAndStale(sets[1..]);
    }
  }

  lemma {:induction false} ReadySums(sets: seq<ReplicaSet>)
    ensures Replicas(AllReady(sets)) == Replicas(sets) && Healthy(AllReady(sets))
  {
    if sets != [] {
      assert AllReady(sets)[1..] == AllReady(sets[1..]);
      ReadySums(sets[1..]);
    }
  }

  lemma {:induction false} HealthySized(sets: seq<ReplicaSet>, zero: bool)
    requires Healthy(sets)
    ensures Healthy(Sized(sets, zero))
  {
    if sets != [] {
      assert Healthy(sets[1..]);
      HealthySized(sets[1..], zero);
    }
  }

  lemma {:induction false} HealthySort(sets: seq<ReplicaSet>)
    requires Healthy(sets)
    ensures Healthy(Sort(sets))
  {
    SortFacts(sets);
    forall i | 0 <= i < |Sort(sets)|
      ensures Sort(sets)[i].available == Sort(sets)[i].replicas
    {
      assert Sort(sets)[i] in multiset(Sort(sets));
      assert Sort(sets)[i] in sets;
    }
  }

  lemma {:induction false} NothingToClean(sets: seq<ReplicaSet>, budget: int, refused: Refusals, writes: nat)
    requires Healthy(sets)
    ensures CleanUp(sets, budget, refused, writes) == Phase(sets, 0, None, writes)
  {
    if sets != [] && budget > 0 {
      assert Healthy(sets[1..]);
      NothingToClean(sets[1..], budget, refused, writes);
      assert [sets[0]] + sets[1..] == sets;
    }
  }

  lemma {:induction false} NothingRefused(sets: seq<ReplicaSet>, budget: int, writes: nat)
    ensures ScaleDown(sets, budget, {}, writes).failure.None?
  {
    if sets != [] && budget > 0 {
      var rs := sets[0];
      if rs.replicas == 0 {
        NothingRefused(sets[1..], budget, writes);
      } else {
        NothingRefused(sets[1..], budget - AtMost(rs.replicas, budget), writes + 1);
      }
    }
  }

  lemma HealthyScaledDown(all: seq<ReplicaSet>, olds: seq<ReplicaSet>, latest: ReplicaSet, d: Deployment)
    requires Healthy(olds) && latest.available == latest.replicas && Replicas(olds) > 0
    requires Replicas(all) == Replicas(olds) + latest.replicas > MinAvailable(d)
    ensures ReconcileOld(all, olds, latest, d, {}, 0).count > 0
  {
    var never: Refusals := {};
    hide Healthy, Sort, CleanUp, ScaleDown, Replicas, Available, MinAvailable, Serving, Stale, Unhealthy, CaughtUp;
    var sorted := Sort(olds);
    HealthySort(olds);
    NothingToClean(sorted, MaxScaledDown(all, latest, d), never, 0);
    SumsSort(olds);
    HealthySums(olds);
    LastSums(sorted, latest);
    SumsSort(sorted);
    NothingRefused(Sort(sorted), Available(sorted + [latest]) - MinAvailable(d), 0);
    ScaleDownExactly(Sort(sorted), Available(sorted + [latest]) - MinAvailable(d), never, 0);
  }

  /** With every pod available, the old replica sets can be scaled down once the new one cannot grow. */
  lemma OldSetsGiveWay(s: State, d: Deployment)
    requires Healthy(All(s)) && NewSize(s, d) == s.latest.replicas && !Complete(s, d)
    ensures var p := ReconcileOld(All(s), Sized(s.olds, false), s.latest, d, {}, 0);
            p.count > 0 && Replicas(p.sets) == Replicas(s.olds) - p.count
  {
    var all := All(s);
    assert Healthy(s.olds) && s.latest.available == s.latest.replicas by {
      assert all[|s.olds|] == s.latest;
      assert forall i :: 0 <= i < |s.olds| ==> all[i] == s.olds[i];
    }
    NoRoomLeft(s, d);
    hide Healthy, NewSize, Sized, ReconcileOld, Replicas, MinAvailable;
    HealthySized(s.olds, false);
    SizedSums(s.olds);
    AllSums(s.olds, s.latest);
    HealthyScaledDown(all, Sized(s.olds, false), s.latest, d);
    ReconcileShrinks(all, Sized(s.olds, false), s.latest, d, {}, 0);
  }

  lemma NoRoomLeft(s: State, d: Deployment)
    requires NewSize(s, d) == s.latest.replicas && !Complete(s, d)
    ensures Replicas(s.olds) > 0 && Replicas(All(s)) > MinAvailable(d)
  {
    AllSums(s.olds, s.latest);
    var _ := ResolveFenceposts(d);
  }

  lemma ProgressMade(s: State, d: Deployment)
    requires Healthy(All(s)) && !Complete(s, d)
    ensures PodsToMove(Rollout(s, d, {}, 0), d) < PodsToMove(s, d)
  {
    NewSizeGrows(s, d);
    if NewSize(s, d) == s.latest.replicas {
      OldSetsGiveWay(s, d);
      hide NewSize, ReconcileOld, Sized, Replicas, Healthy;
      SizedSums(s.olds);
      SumsAppend(ReconcileOld(All(s), Sized(s.olds, false), s.latest, d, {}, 0).sets, Sized(s.olds, true));
    }
  }

  lemma ReadyAfterTurn(s: State, d: Deployment)
    ensures Healthy(All(HealthyTurn(s, d))) && PodsToMove(HealthyTurn(s, d), d) == PodsToMove(Rollout(s, d, {}, 0), d)
  {
    hide Rollout, Replicas;
    ReadySums(Rollout(s, d, {}, 0).olds);
  }

  function HealthyTurns(s: State, d: Deployment, n: nat): State
    decreases n
  {
    if n == 0 then s else HealthyTurns(HealthyTurn(s, d), d, n - 1)
  }

  /** A rolling update never gets stuck: as long as pods become available and writes succeed, it is
      complete after at most as many turns as there are pods to move. */
  lemma {:induction false} RolloutCompletes(s: State, d: Deployment)
    requires Healthy(All(s))
    ensures exists n: nat :: n <= PodsToMove(s, d) && Complete(HealthyTurns(s, d, n), d)
    decreases PodsToMove(s, d)
  {
    hide Healthy, HealthyTurn, Complete, PodsToMove;
    if Complete(s, d) {
      assert HealthyTurns(s, d, 0) == s;
    } else {
      ProgressMade(s, d);
      ReadyAfterTurn(s, d);
      var t := HealthyTurn(s, d);
      RolloutCompletes(t, d);
      var n: nat :| n <= PodsToMove(t, d) && Complete(HealthyTurns(t, d, n), d);
      assert HealthyTurns(s, d, n + 1) == HealthyTurns(t, d, n);
    }
  }

  // ----- the controller -----

  predicate Clash(sets: seq<ReplicaSet>, i: nat, j: nat)
    requires i < j < |sets|
  {
    sets[i].name == sets[j].name
  }

  predicate DistinctNames(sets: seq<ReplicaSet>) {
    forall i, j :: 0 <= i < j < |sets| ==> !Clash(sets, i, j)
  }

  predicate Named(sets: seq<ReplicaSet>, name: nat) {
    exists i :: 0 <= i < |sets| && sets[i].name == name
  }

  /** The cluster holds these replica sets, and all others as before. */
  ghost predicate Reflects(cluster: map<nat, ReplicaSet>, before: map<nat, ReplicaSet>, sets: seq<ReplicaSet>) {
    && (forall i :: 0 <= i < |sets| ==> sets[i].name in cluster && cluster[sets[i].name] == sets[i])
    && (forall name: nat :: !Named(sets, name) ==>
          (name in cluster <==> name in before) && (name in cluster ==> cluster[name] == before[name]))
  }

  lemma NamedAt(sets: seq<ReplicaSet>, rs: ReplicaSet)
    requires rs in sets
    ensures Named(sets, rs.name)
  {
  }

  /** Replica sets in another order. */
  lemma SortReflects(cluster: map<nat, ReplicaSet>, before: map<nat, ReplicaSet>, sets: seq<ReplicaSet>)
    requires Reflects(cluster, before, sets) && DistinctNames(sets)
    ensures Reflects(cluster, before, Sort(sets)) && DistinctNames(Sort(sets))
  {
    SortFacts(sets);
    var sorted := Sort(sets);
    forall i | 0 <= i < |sorted|
      ensures sorted[i].name in cluster && cluster[sorted[i].name] == sorted[i]
    {
      assert sorted[i] in multiset(sorted);
      assert sorted[i] in sets;
    }
    DistinctSort(sets);
  }

  lemma {:induction false} DistinctInsert(rs: ReplicaSet, sorted: seq<ReplicaSet>)
    requires DistinctNames(sorted) && !Named(sorted, rs.name)
    ensures DistinctNames(Insert(rs, sorted))
    ensures forall name :: Named(Insert(rs, sorted), name) <==> name == rs.name || Named(sorted, name)
  {
    if sorted == [] || Precedes(rs, sorted[0]) {
      NamedCons(rs, sorted);
      DistinctCons(rs, sorted);
    } else {
      var first, rest := sorted[0], sorted[1..];
      assert sorted == [first] + rest;
      NamedCons(first, rest);
      DistinctCons(first, rest);
      hide Named, DistinctNames;
      DistinctInsert(rs, rest);
      NamedCons(first, Insert(rs, rest));
      DistinctCons(first, Insert(rs, rest));
    }
  }

  lemma NamedCons(rs: ReplicaSet, rest: seq<ReplicaSet>)
    ensures forall name :: Named([rs] + rest, name) <==> name == rs.name || Named(rest, name)
  {
    var all := [rs] + rest;
    assert all[0] == rs && forall i :: 0 <= i < |rest| ==> all[i + 1] == rest[i];
  }

  lemma DistinctCons(rs: ReplicaSet, rest: seq<ReplicaSet>)
    ensures DistinctNames([rs] + rest) <==> DistinctNames(rest) && !Named(rest, rs.name)
  {
    var all := [rs] + rest;
    assert all[0] == rs && forall i :: 0 <= i < |rest| ==> all[i + 1] == rest[i];
    if DistinctNames(all) {
      forall i, j | 0 <= i < j < |rest|
        ensures !Clash(rest, i, j)
      {
        assert !Clash(all, i + 1, j + 1);
      }
      forall j | 0 <= j < |rest|
        ensures rest[j].name != rs.name
      {
        assert !Clash(all, 0, j + 1);
      }
    }
    if DistinctNames(rest) && !Named(rest, rs.name) {
      forall i: nat, j: nat | 0 <= i < j < |all|
        ensures !Clash(all, i, j)
      {
        assert i > 0 ==> !Clash(rest, i - 1, j - 1);
      }
    }
  }

  lemma {:induction false} DistinctSort(sets: seq<ReplicaSet>)
    requires DistinctNames(sets)
    ensures DistinctNames(Sort(sets))
    ensures forall name :: Named(Sort(sets), name) <==> Named(sets, name)
  {
    if sets == [] {
    } else {
      assert sets == [sets[0]] + sets[1..];
      NamedCons(sets[0], sets[1..]);
      DistinctCons(sets[0], sets[1..]);
      hide Named, DistinctNames;
      DistinctSort(sets[1..]);
      DistinctInsert(sets[0], Sort(sets[1..]));
    }
  }

  /** Writing one replica set. */
  lemma WriteReflects(cluster: map<nat, ReplicaSet>, before: map<nat, ReplicaSet>, sets: seq<ReplicaSet>, i: nat, size: nat)
    requires Reflects(cluster, before, sets) && DistinctNames(sets) && i < |sets|
    ensures var rs := sets[i].(replicas := size);
            Reflects(cluster[rs.name := rs], before, sets[i := rs]) && DistinctNames(sets[i := rs])
  {
    var rs := sets[i].(replicas := size);
    var after := sets[i := rs];
    forall j, k | 0 <= j < k < |sets|
      ensures !Clash(after, j, k)
    {
      assert !Clash(sets, j, k);
    }
    forall j | 0 <= j < |sets| && j != i
      ensures sets[j].name != rs.name
    {
      assert if j < i then !Clash(sets, j, i) else !Clash(sets, i, j);
    }
    forall name: nat | Named(sets, name)
      ensures Named(after, name)
    {
      StillNamed(sets, i, rs, name);
    }
    NamedAt(after, after[i]);
  }

  lemma StillNamed(sets: seq<ReplicaSet>, i: nat, rs: ReplicaSet, name: nat)
    requires i < |sets| && rs.name == sets[i].name && Named(sets, name)
    ensures Named(sets[i := rs], name)
  {
    var j :| 0 <= j < |sets| && sets[j].name == name;
    assert sets[i := rs][j].name == name;
  }

  /** What a phase returns: nothing is said of its work if a size would have grown. */
  predicate Reports(p: Phase, sets: seq<ReplicaSet>, count: int, error: Option<Failure>, writes: nat) {
    && error == p.failure && writes == p.writes
    && (if error == Some(InvalidScale) then sets == [] && count == 0 else sets == p.sets && count == p.count)
  }

  /** A phase as far as the i-th replica set: `sets` holds what it has done, which the cluster reflects. */
  ghost predicate Ongoing(cluster: map<nat, ReplicaSet>, before: map<nat, ReplicaSet>, was: seq<ReplicaSet>, sets: seq<ReplicaSet>, i: nat) {
    && |sets| == |was| && i <= |was| && sets[i..] == was[i..]
    && Reflects(cluster, before, sets) && DistinctNames(sets)
  }

  /** A phase that is over: `goal` is what it has done. */
  ghost predicate Over(cluster: map<nat, ReplicaSet>, before: map<nat, ReplicaSet>, goal: Phase) {
    Reflects(cluster, before, goal.sets) && DistinctNames(goal.sets)
  }

  lemma OngoingNext(cluster: map<nat, ReplicaSet>, before: map<nat, ReplicaSet>, was: seq<ReplicaSet>, sets: seq<ReplicaSet>, i: nat, k: nat)
    requires Ongoing(cluster, before, was, sets, i) && i < |was| && k <= was[i].replicas
    ensures sets[i] == was[i] && sets[..i + 1] == sets[..i] + [was[i]]
    ensures Ongoing(cluster, before, was, sets, i + 1)
    ensures var less := was[i].(replicas := was[i].replicas - k);
            && Ongoing(cluster[less.name := less], before, was, sets[i := less], i + 1)
            && sets[i := less][..i + 1] == sets[..i] + [less]
  {
    var less := was[i].(replicas := was[i].replicas - k);
    assert sets[i] == sets[i..][0] == was[i..][0];
    assert sets[i + 1..] == sets[i..][1..] == was[i..][1..] == was[i + 1..];
    hide Reflects, DistinctNames;
    assert sets[i := less][i + 1..] == sets[i + 1..];
    WriteReflects(cluster, before, sets, i, less.replicas);
  }

  ghost predicate Cleaning(cluster: map<nat, ReplicaSet>, before: map<nat, ReplicaSet>, goal: Phase,
                           was: seq<ReplicaSet>, sets: seq<ReplicaSet>, i: nat, count: int, budget: int, refused: Refusals, writes: nat) {
    && Ongoing(cluster, before, was, sets, i)
    && Then(sets[..i], count, CleanUp(was[i..], budget - count, refused, writes)) == goal
  }

  lemma CleaningStarts(cluster: map<nat, ReplicaSet>, was: seq<ReplicaSet>, budget: int, refused: Refusals, writes: nat)
    requires Reflects(cluster, cluster, was) && DistinctNames(was)
    ensures Cleaning(cluster, cluster, CleanUp(was, budget, refused, writes), was, was, 0, 0, budget, refused, writes)
  {
    hide Reflects, DistinctNames;
    assert was[0..] == was;
    var p := CleanUp(was, budget, refused, writes);
    assert [] + p.sets == p.sets;
  }

  lemma CleaningEnds(cluster: map<nat, ReplicaSet>, before: map<nat, ReplicaSet>, goal: Phase,
                     was: seq<ReplicaSet>, sets: seq<ReplicaSet>, i: nat, count: int, budget: int, refused: Refusals, writes: nat)
    requires Cleaning(cluster, before, goal, was, sets, i, count, budget, refused, writes) && (i == |was| || count >= budget)
    ensures Reports(goal, sets, count, None, writes) && Over(cluster, before, goal)
  {
    hide Reflects, DistinctNames;
    assert sets[..i] + sets[i..] == sets;
  }

  lemma CleaningFails(cluster: map<nat, ReplicaSet>, before: map<nat, ReplicaSet>, goal: Phase,
                      was: seq<ReplicaSet>, sets: seq<ReplicaSet>, i: nat, count: int, budget: int, refused: Refusals, writes: nat)
    requires Cleaning(cluster, before, goal, was, sets, i, count, budget, refused, writes) && i < |was| && count < budget
    requires 0 < was[i].replicas != was[i].available && (was[i].replicas < was[i].available || writes in refused)
    ensures Over(cluster, before, goal)
    ensures if was[i].replicas < was[i].available then Reports(goal, [], 0, Some(InvalidScale), writes)
            else Reports(goal, sets, count, Some(WriteFailed), writes + 1)
  {
    hide Reflects, DistinctNames;
    assert sets[..i] + sets[i..] == sets;
  }

  lemma CleaningAt(cluster: map<nat, ReplicaSet>, before: map<nat, ReplicaSet>, goal: Phase,
                   was: seq<ReplicaSet>, sets: seq<ReplicaSet>, i: nat, count: int, budget: int, refused: Refusals, writes: nat)
    requires Cleaning(cluster, before, goal, was, sets, i, count, budget, refused, writes) && i < |was|
    ensures |sets| == |was| && sets[i] == was[i]
  {
    hide Reflects, DistinctNames;
    assert sets[i] == sets[i..][0] == was[i..][0];
  }

  lemma NothingDone(cluster: map<nat, ReplicaSet>, olds: seq<ReplicaSet>, writes: nat)
    requires Reflects(cluster, cluster, olds) && DistinctNames(olds)
    ensures Reports(Phase(olds, 0, None, writes), olds, 0, None, writes) && Over(cluster, cluster, Phase(olds, 0, None, writes))
  {
  }

  lemma HowMany(budget: int, rs: ReplicaSet)
    requires budget > 0 && rs.replicas != rs.available
    ensures var k := AtMost(budget, rs.replicas - rs.available);
            if rs.available < rs.replicas then 0 < k <= rs.replicas else k < 0
  {
  }

  lemma CleaningSkips(cluster: map<nat, ReplicaSet>, before: map<nat, ReplicaSet>, goal: Phase,
                      was: seq<ReplicaSet>, sets: seq<ReplicaSet>, i: nat, count: int, budget: int, refused: Refusals, writes: nat)
    requires Cleaning(cluster, before, goal, was, sets, i, count, budget, refused, writes) && i < |was| == |sets| && count < budget
    requires was[i].replicas == 0 || was[i].replicas == was[i].available
    ensures Cleaning(cluster, before, goal, was, sets, i + 1, count, budget, refused, writes)
  {
    hide Ongoing;
    OngoingNext(cluster, before, was, sets, i, 0);
    assert was[i..][1..] == was[i + 1..];
    ThenThen(sets[..i], count, was[i], 0, CleanUp(was[i + 1..], budget - count, refused, writes));
  }

  lemma CleaningWrites(cluster: map<nat, ReplicaSet>, after: map<nat, ReplicaSet>, before: map<nat, ReplicaSet>, goal: Phase, was: seq<ReplicaSet>,
                       sets: seq<ReplicaSet>, i: nat, count: int, total: int, budget: int, refused: Refusals, writes: nat, k: int, less: ReplicaSet)
    requires Cleaning(cluster, before, goal, was, sets, i, count, budget, refused, writes) && i < |was| == |sets| && count < budget
    requires after == cluster[less.name := less] && total == count + k
    requires was[i].available < was[i].replicas && writes !in refused
    requires k == AtMost(budget - count, was[i].replicas - was[i].available) && less == was[i].(replicas := was[i].replicas - k)
    ensures Cleaning(after, before, goal, was, sets[i := less], i + 1, total, budget, refused, writes + 1)
  {
    hide Ongoing;
    OngoingNext(cluster, before, was, sets, i, k);
    assert was[i..][1..] == was[i + 1..];
    ThenThen(sets[..i], count, less, k, CleanUp(was[i + 1..], budget - count - k, refused, writes + 1));
  }

  ghost predicate Scaling(cluster: map<nat, ReplicaSet>, before: map<nat, ReplicaSet>, goal: Phase,
                          was: seq<ReplicaSet>, sets: seq<ReplicaSet>, i: nat, count: int, budget: int, refused: Refusals, writes: nat) {
    && Ongoing(cluster, before, was, sets, i)
    && Then(sets[..i], count, ScaleDown(was[i..], budget - count, refused, writes)) == goal
  }

  lemma ScalingStarts(cluster: map<nat, ReplicaSet>, was: seq<ReplicaSet>, budget: int, refused: Refusals, writes: nat)
    requires Reflects(cluster, cluster, was) && DistinctNames(was)
    ensures Scaling(cluster, cluster, ScaleDown(was, budget, refused, writes), was, was, 0, 0, budget, refused, writes)
  {
    hide Reflects, DistinctNames;
    assert was[0..] == was;
    var p := ScaleDown(was, budget, refused, writes);
    assert [] + p.sets == p.sets;
  }

  lemma ScalingEnds(cluster: map<nat, ReplicaSet>, before: map<nat, ReplicaSet>, goal: Phase,
                    was: seq<ReplicaSet>, sets: seq<ReplicaSet>, i: nat, count: int, budget: int, refused: Refusals, writes: nat)
    requires Scaling(cluster, before, goal, was, sets, i, count, budget, refused, writes) && (i == |was| || count >= budget)
    ensures Reports(goal, goal.sets, count, None, writes) && Over(cluster, before, goal)
  {
    hide Reflects, DistinctNames;
    assert sets[..i] + sets[i..] == sets;
  }

  lemma ScalingFails(cluster: map<nat, ReplicaSet>, before: map<nat, ReplicaSet>, goal: Phase,
                     was: seq<ReplicaSet>, sets: seq<ReplicaSet>, i: nat, count: int, budget: int, refused: Refusals, writes: nat)
    requires Scaling(cluster, before, goal, was, sets, i, count, budget, refused, writes) && i < |was| && count < budget
    requires was[i].replicas > 0 && writes in refused
    ensures Reports(goal, goal.sets, count, Some(WriteFailed), writes + 1) && Over(cluster, before, goal)
  {
    hide Reflects, DistinctNames;
    assert sets[..i] + sets[i..] == sets;
  }

  lemma ScalingSkips(cluster: map<nat, ReplicaSet>, before: map<nat, ReplicaSet>, goal: Phase,
                     was: seq<ReplicaSet>, sets: seq<ReplicaSet>, i: nat, count: int, budget: int, refused: Refusals, writes: nat)
    requires Scaling(cluster, before, goal, was, sets, i, count, budget, refused, writes) && i < |was| == |sets| && count < budget
    requires was[i].replicas == 0
    ensures Scaling(cluster, before, goal, was, sets, i + 1, count, budget, refused, writes)
  {
    hide Ongoing;
    OngoingNext(cluster, before, was, sets, i, 0);
    assert was[i..][1..] == was[i + 1..];
    ThenThen(sets[..i], count, was[i], 0, ScaleDown(was[i + 1..], budget - count, refused, writes));
  }

  lemma ScalingWrites(cluster: map<nat, ReplicaSet>, after: map<nat, ReplicaSet>, before: map<nat, ReplicaSet>, goal: Phase, was: seq<ReplicaSet>,
                       sets: seq<ReplicaSet>, i: nat, count: int, total: int, budget: int, refused: Refusals, writes: nat, k: int, less: ReplicaSet)
    requires Scaling(cluster, before, goal, was, sets, i, count, budget, refused, writes) && i < |was| == |sets| && count < budget
    requires after == cluster[less.name := less] && total == count + k
    requires was[i].replicas > 0 && writes !in refused
    requires k == AtMost(was[i].replicas, budget - count) && less == was[i].(replicas := was[i].replicas - k)
    ensures Scaling(after, before, goal, was, sets[i := less], i + 1, total, budget, refused, writes + 1)
  {
    hide Ongoing;
    OngoingNext(cluster, before, was, sets, i, k);
    assert was[i..][1..] == was[i + 1..];
    ThenThen(sets[..i], count, less, k, ScaleDown(was[i + 1..], budget - count - k, refused, writes + 1));
  }

  lemma ThenThen(head: seq<ReplicaSet>, count: int, one: ReplicaSet, k: int, rest: Phase)
    ensures Then(head, count, Then([one], k, rest)) == Then(head + [one], count + k, rest)
  {
    assert head + ([one] + rest.sets) == head + [one] + rest.sets;
  }

  class DeploymentController {
    const refused: Refusals
    var replicaSets: map<nat, ReplicaSet>
    var writes: nat

    constructor (replicaSets: map<nat, ReplicaSet>, refused: Refusals)
      ensures this.replicaSets == replicaSets && this.refused == refused && writes == 0
    {
      this.refused, this.replicaSets, writes := refused, replicaSets, 0;
    }

    /** Gives a replica set a new size; a size that it already has is not written. */
    method ScaleReplicaSet(rs: ReplicaSet, newScale: nat) returns (scaled: bool, updated: ReplicaSet, error: Option<Failure>)
      modifies this`replicaSets, this`writes
      ensures newScale == rs.replicas ==> !scaled && error == None && writes == old(writes)
      ensures newScale != rs.replicas ==> writes == old(writes) + 1 && scaled == (old(writes) !in refused)
      ensures newScale != rs.replicas && !scaled ==> error == Some(WriteFailed)
      ensures scaled ==> error == None && updated == rs.(replicas := newScale) && replicaSets == old(replicaSets)[updated.name := updated]
      ensures !scaled ==> updated == rs && replicaSets == old(replicaSets)
    {
      scaled, updated, error := false, rs, None;
      if newScale == rs.replicas {
        return;
      }
      writes := writes + 1;
      if writes - 1 in refused {
        return false, rs, Some(WriteFailed);
      }
      updated := rs.(replicas := newScale);
      replicaSets := replicaSets[rs.name := updated];
      scaled := true;
    }

    /** Takes unhealthy pods away from the old replica sets; a size that would grow is refused, and
        nothing is then said of what was done before. */
    method CleanupUnhealthyReplicas(oldReplicaSets: seq<ReplicaSet>, maxCleanupCount: int)
      returns (sorted: seq<ReplicaSet>, count: int, error: Option<Failure>)
      requires DistinctNames(oldReplicaSets) && Reflects(replicaSets, replicaSets, oldReplicaSets)
      modifies this`replicaSets, this`writes
      ensures var p := CleanUp(Sort(oldReplicaSets), maxCleanupCount, refused, old(writes));
              Reports(p, sorted, count, error, writes) && Over(replicaSets, old(replicaSets), p)
    {
      hide Reflects, DistinctNames, Sort, CleanUp, Cleaning, Over, AtMost, Reports;
      SortReflects(replicaSets, replicaSets, oldReplicaSets);
      sorted := Sort(oldReplicaSets);
      ghost var was := sorted;
      ghost var goal := CleanUp(was, maxCleanupCount, refused, writes);
      CleaningStarts(replicaSets, was, maxCleanupCount, refused, writes);
      var totalScaledDown := 0;
      for i := 0 to |sorted|
        invariant |sorted| == |was|
        invariant Cleaning(replicaSets, old(replicaSets), goal, was, sorted, i, totalScaledDown, maxCleanupCount, refused, writes)
      {
        hide Reflects, DistinctNames, Sort, CleanUp, Cleaning, Over, AtMost, Reports;
        if totalScaledDown >= maxCleanupCount {
          CleaningEnds(replicaSets, old(replicaSets), goal, was, sorted, i, totalScaledDown, maxCleanupCount, refused, writes);
          return sorted, totalScaledDown, None;
        }
        CleaningAt(replicaSets, old(replicaSets), goal, was, sorted, i, totalScaledDown, maxCleanupCount, refused, writes);
        var replicaSet := sorted[i];
        if replicaSet.replicas == 0 || replicaSet.replicas == replicaSet.available {
          CleaningSkips(replicaSets, old(replicaSets), goal, was, sorted, i, totalScaledDown, maxCleanupCount, refused, writes);
          continue;
        }
        HowMany(maxCleanupCount - totalScaledDown, replicaSet);
        var scaledDownCount := AtMost(maxCleanupCount - totalScaledDown, replicaSet.replicas - replicaSet.available);
        var newReplicasCount := replicaSet.replicas - scaledDownCount;
        if newReplicasCount > replicaSet.replicas {
          CleaningFails(replicaSets, old(replicaSets), goal, was, sorted, i, totalScaledDown, maxCleanupCount, refused, writes);
          return [], 0, Some(InvalidScale);
        }
        ghost var cluster, asked := replicaSets, writes;
        var _, updated, err := ScaleReplicaSet(replicaSet, newReplicasCount);
        if err.Some? {
          CleaningFails(cluster, old(replicaSets), goal, was, sorted, i, totalScaledDown, maxCleanupCount, refused, asked);
          return sorted, totalScaledDown, err;
        }
        totalScaledDown := totalScaledDown + scaledDownCount;
        CleaningWrites(cluster, replicaSets, old(replicaSets), goal, was, sorted, i, totalScaledDown - scaledDownCount, totalScaledDown,
                       maxCleanupCount, refused, asked, scaledDownCount, updated);
        sorted := sorted[i := updated];
      }
      hide Reflects, DistinctNames, Sort, CleanUp, Cleaning, Over;
      CleaningEnds(replicaSets, old(replicaSets), goal, was, sorted, |sorted|, totalScaledDown, maxCleanupCount, refused, writes);
      return sorted, totalScaledDown, None;
    }

    /** Scales the old replica sets down as far as the available pods allow. */
    method ScaleDownOldReplicaSetsForRollingUpdate(allReplicaSets: seq<ReplicaSet>, olds: seq<ReplicaSet>, deployment: Deployment,
                                                   ghost latest: ReplicaSet)
      returns (count: int, error: Option<Failure>)
      requires DistinctNames(olds) && Reflects(replicaSets, replicaSets, olds) && allReplicaSets == olds + [latest]
      modifies this`replicaSets, this`writes
      ensures var p := ScaleDownForUpdate(olds, latest, deployment, refused, old(writes));
              Reports(p, p.sets, count, error, writes) && error != Some(InvalidScale) && Over(replicaSets, old(replicaSets), p)
    {
      hide Reflects, DistinctNames, Sort, Available, MaxUnavailable, ScaleDown, Scaling, Over, Reports;
      var minAvailable := deployment.replicas - MaxUnavailable(deployment);
      var availablePodCount := Available(allReplicaSets);
      if availablePodCount <= minAvailable {
        NothingDone(replicaSets, olds, writes);
        return 0, None;
      }
      SortReflects(replicaSets, replicaSets, olds);
      var oldReplicaSets := Sort(olds);
      var totalScaleDownCount := availablePodCount - minAvailable;
      ghost var now, goal := oldReplicaSets, ScaleDown(oldReplicaSets, totalScaleDownCount, refused, writes);
      ScalingStarts(replicaSets, oldReplicaSets, totalScaleDownCount, refused, writes);
      var totalScaledDown := 0;
      for i := 0 to |oldReplicaSets|
        invariant |now| == |oldReplicaSets|
        invariant Scaling(replicaSets, old(replicaSets), goal, oldReplicaSets, now, i, totalScaledDown, totalScaleDownCount, refused, writes)
      {
        hide Reflects, DistinctNames, Sort, Available, MaxUnavailable, ScaleDown, Scaling, Over, Reports;
        if totalScaledDown >= totalScaleDownCount {
          ScalingEnds(replicaSets, old(replicaSets), goal, oldReplicaSets, now, i, totalScaledDown, totalScaleDownCount, refused, writes);
          return totalScaledDown, None;
        }
        var replicaSet := oldReplicaSets[i];
        if replicaSet.replicas == 0 {
          ScalingSkips(replicaSets, old(replicaSets), goal, oldReplicaSets, now, i, totalScaledDown, totalScaleDownCount, refused, writes);
          continue;
        }
        var scaleDownCount := AtMost(replicaSet.replicas, totalScaleDownCount - totalScaledDown);
        var newReplicasCount := replicaSet.replicas - scaleDownCount;
        ghost var cluster, asked := replicaSets, writes;
        var _, updated, err := ScaleReplicaSet(replicaSet, newReplicasCount);
        if err.Some? {
          ScalingFails(cluster, old(replicaSets), goal, oldReplicaSets, now, i, totalScaledDown, totalScaleDownCount, refused, asked);
          return totalScaledDown, err;
        }
        totalScaledDown := totalScaledDown + scaleDownCount;
        ScalingWrites(cluster, replicaSets, old(replicaSets), goal, oldReplicaSets, now, i, totalScaledDown - scaleDownCount, totalScaledDown,
                      totalScaleDownCount, refused, asked, scaleDownCount, updated);
        now := now[i := updated];
      }
      hide Reflects, DistinctNames, Sort, Available, MaxUnavailable, ScaleDown, Scaling, Over, Reports;
      ScalingEnds(replicaSets, old(replicaSets), goal, oldReplicaSets, now, |now|, totalScaledDown, totalScaleDownCount, refused, writes);
      return totalScaledDown, None;
    }

    /** One turn on the old replica sets. */
    method ReconcileOldReplicaSets(allReplicaSets: seq<ReplicaSet>, oldReplicaSets: seq<ReplicaSet>, newReplicaSet: ReplicaSet,
                                   deployment: Deployment) returns (scaled: bool)
      requires DistinctNames(oldReplicaSets) && Reflects(replicaSets, replicaSets, oldReplicaSets)
      modifies this`replicaSets, this`writes
      ensures var p := ReconcileOld(allReplicaSets, oldReplicaSets, newReplicaSet, deployment, refused, old(writes));
              && writes == p.writes && Reflects(replicaSets, old(replicaSets), p.sets)
              && (scaled <==> p.failure.None? && p.count > 0)
    {
      hide Reflects, DistinctNames, Sort, Available, Replicas, MaxUnavailable, CleanUp, ScaleDownForUpdate;
      if Replicas(oldReplicaSets) == 0 {
        return false;
      }
      var minAvailable := deployment.replicas - MaxUnavailable(deployment);
      var maxScaledDown := Replicas(allReplicaSets) - minAvailable - (newReplicaSet.replicas - newReplicaSet.available);
      if maxScaledDown <= 0 {
        return false;
      }
      var remaining, cleanupCount, cleanupErr := CleanupUnhealthyReplicas(oldReplicaSets, maxScaledDown);
      if cleanupErr.Some? {
        return false;
      }
      ghost var cleaned := CleanUp(Sort(oldReplicaSets), maxScaledDown, refused, old(writes));
      ghost var between := replicaSets;
      ReflectsItself(between, old(replicaSets), remaining);
      var scaledDownCount, scaleDownErr := ScaleDownOldReplicaSetsForRollingUpdate(remaining + [newReplicaSet], remaining, deployment, newReplicaSet);
      ghost var p := ScaleDownForUpdate(remaining, newReplicaSet, deployment, refused, cleaned.writes);
      ScaleDownNames(remaining, newReplicaSet, deployment, refused, cleaned.writes);
      ReflectsTwice(replicaSets, between, old(replicaSets), remaining, p.sets);
      assert [] + p.sets == p.sets;
      if scaleDownErr.Some? {
        return false;
      }
      return cleanupCount + scaledDownCount > 0;
    }
  }

  lemma ReflectsItself(cluster: map<nat, ReplicaSet>, before: map<nat, ReplicaSet>, sets: seq<ReplicaSet>)
    requires Reflects(cluster, before, sets)
    ensures Reflects(cluster, cluster, sets)
  {
  }

  ghost predicate SameNames(a: seq<ReplicaSet>, b: seq<ReplicaSet>) {
    forall name :: Named(a, name) <==> Named(b, name)
  }

  lemma ReflectsTwice(cluster: map<nat, ReplicaSet>, between: map<nat, ReplicaSet>, before: map<nat, ReplicaSet>,
                      a: seq<ReplicaSet>, b: seq<ReplicaSet>)
    requires Reflects(between, before, a) && Reflects(cluster, between, b) && SameNames(a, b)
    ensures Reflects(cluster, before, b)
  {
    hide Named;
  }

  lemma ScaleDownNames(olds: seq<ReplicaSet>, latest: ReplicaSet, d: Deployment, refused: Refusals, writes: nat)
    requires DistinctNames(olds)
    ensures SameNames(olds, ScaleDownForUpdate(olds, latest, d, refused, writes).sets)
  {
    var budget := Available(olds + [latest]) - MinAvailable(d);
    if budget > 0 {
      hide ScaleDown, Sort, Available, MinAvailable, DistinctNames, OldestFirst;
      DistinctSort(olds);
      ScaleDownShrinks(Sort(olds), budget, refused, writes);
      ShrunkNames(Sort(olds), ScaleDown(Sort(olds), budget, refused, writes).sets);
    }
  }

  lemma ShrunkNames(before: seq<ReplicaSet>, after: seq<ReplicaSet>)
    requires Shrunk(before, after)
    ensures SameNames(before, after)
  {
    forall name
      ensures Named(before, name) <==> Named(after, name)
    {
      if Named(before, name) {
        var i :| 0 <= i < |before| && before[i].name == name;
        assert after[i].name == name;
      }
      if Named(after, name) {
        var i :| 0 <= i < |after| && after[i].name == name;
        assert before[i].name == name;
      }
    }
  }

  // ----- scaling a deployment whose size has changed -----

  function Allowed(d: Deployment): nat {
    if d.replicas > 0 then d.replicas + MaxSurge(d) else 0
  }

  /** Rounds half up. */
  function Round(a: int, b: nat): (r: int)
    requires b > 0
    ensures 2 * r * b <= 2 * a + b < 2 * (r + 1) * b
  {
    (2 * a + b) / (2 * b)
  }

  /** By how much a replica set would grow if it grew as the deployment does. */
  function Fraction(rs: ReplicaSet, d: Deployment, statusReplicas: nat): int {
    if d.replicas == 0 then 0 - rs.replicas
    else
      var before := if rs.maxReplicas == 0 then statusReplicas else rs.maxReplicas;
      if before == 0 then 0 else Round(rs.replicas * (d.replicas + MaxSurge(d)), before) - rs.replicas
  }

  function Proportion(rs: ReplicaSet, d: Deployment, statusReplicas: nat, toAdd: int, added: int): int {
    if rs.replicas == 0 || toAdd == 0 || toAdd == added then 0
    else if toAdd > 0 then AtMost(Fraction(rs, d, statusReplicas), toAdd - added)
    else AtLeast(Fraction(rs, d, statusReplicas), toAdd - added)
  }

  /** The sizes in proportion, each given what the earlier ones took. */
  function Proportional(sets: seq<ReplicaSet>, d: Deployment, statusReplicas: nat, toAdd: int, added: int): seq<int> {
    if sets == [] then []
    else
      var share := Proportion(sets[0], d, statusReplicas, toAdd, added);
      [sets[0].replicas + share] + Proportional(sets[1..], d, statusReplicas, toAdd, added + share)
  }

  function Sum(sizes: seq<int>): int {
    if sizes == [] then 0 else sizes[0] + Sum(sizes[1..])
  }

  /** What the first replica set takes of the rounding. */
  function WithLeftover(sizes: seq<int>, leftover: int): seq<int> {
    if sizes == [] then [] else [AtLeast(sizes[0] + leftover, 0)] + sizes[1..]
  }

  /** The sizes that the replica sets of a deployment are given. */
  function ScaledSizes(sets: seq<ReplicaSet>, d: Deployment, statusReplicas: nat): seq<int> {
    var toAdd := Allowed(d) - Replicas(sets);
    var sizes := Proportional(sets, d, statusReplicas, toAdd, 0);
    if toAdd == 0 then sizes else WithLeftover(sizes, toAdd - (Sum(sizes) - Replicas(sets)))
  }

  /** The nearest whole size to that which grows as the deployment does, halves going up; what a replica
      set has if there is nothing to compare with; nothing if the deployment is to have no pods. */
  predicate FairSize(rs: ReplicaSet, d: Deployment, statusReplicas: nat, size: int) {
    var before := if rs.maxReplicas > 0 then rs.maxReplicas else statusReplicas;
    if d.replicas == 0 then size == 0
    else if before == 0 then size == rs.replicas
    else 2 * size * before <= 2 * (rs.replicas * (d.replicas + MaxSurge(d))) + before < 2 * (size + 1) * before
  }

  /** One number at most is nearest. */
  lemma RoundUnique(a: int, b: nat, r: int)
    requires b > 0 && 2 * r * b <= 2 * a + b < 2 * (r + 1) * b
    ensures Round(a, b) == r
  {
    var q := Round(a, b);
    if q < r {
      ProductGrows(q + 1, r, b);
    } else if q > r {
      ProductGrows(r + 1, q, b);
    }
  }

  lemma ProductGrows(low: int, high: int, b: nat)
    requires low <= high
    ensures 2 * low * b <= 2 * high * b
  {
    assert (high - low) * b >= 0;
  }

  /** A replica set goes to its fair size, as far as what is left to be added or removed allows; an empty
      one stays empty. */
  lemma ProportionMeans(rs: ReplicaSet, d: Deployment, statusReplicas: nat, toAdd: int, added: int, fair: int)
    requires FairSize(rs, d, statusReplicas, fair) && if toAdd >= 0 then added <= toAdd else added >= toAdd
    ensures var share, left := Proportion(rs, d, statusReplicas, toAdd, added), toAdd - added;
            share == if rs.replicas == 0 || left == 0 then 0
                     else if toAdd > 0 then (if fair - rs.replicas < left then fair - rs.replicas else left)
                     else if toAdd < 0 then (if fair - rs.replicas > left then fair - rs.replicas else left)
                     else 0
  {
    var before := if rs.maxReplicas > 0 then rs.maxReplicas else statusReplicas;
    if d.replicas > 0 && before > 0 {
      RoundUnique(rs.replicas * (d.replicas + MaxSurge(d)), before, fair);
    }
    hide Round, MaxSurge;
  }

  /** Each replica set has its turn on what the earlier ones left. */
  lemma {:induction false} SharesInTurn(sets: seq<ReplicaSet>, d: Deployment, statusReplicas: nat, toAdd: int, added: int, i: nat)
    requires i < |sets|
    ensures var sizes := Proportional(sets, d, statusReplicas, toAdd, added);
            && |sizes| == |sets|
            && sizes[i] == sets[i].replicas + Proportion(sets[i], d, statusReplicas, toAdd, added + Sum(sizes[..i]) - Replicas(sets[..i]))
  {
    hide Proportion;
    var share := Proportion(sets[0], d, statusReplicas, toAdd, added);
    var sizes := Proportional(sets, d, statusReplicas, toAdd, added);
    var rest := Proportional(sets[1..], d, statusReplicas, toAdd, added + share);
    assert sizes == [sets[0].replicas + share] + rest;
    if i == 0 {
      assert Sum(sizes[..0]) == 0 && Replicas(sets[..0]) == 0;
      if |sets| > 1 {
        SharesInTurn(sets[1..], d, statusReplicas, toAdd, added + share, 0);
      }
    } else {
      SharesInTurn(sets[1..], d, statusReplicas, toAdd, added + share, i - 1);
      assert sizes[..i][1..] == rest[..i - 1] && sets[..i][1..] == sets[1..][..i - 1];
    }
  }

  lemma {:induction false} SharesBounded(sets: seq<ReplicaSet>, d: Deployment, statusReplicas: nat, toAdd: int, added: int)
    requires if toAdd >= 0 then added <= toAdd else added >= toAdd
    ensures var sizes := Proportional(sets, d, statusReplicas, toAdd, added);
            && |sizes| == |sets| && (forall i :: 0 <= i < |sizes| ==> sizes[i] >= 0)
            && (toAdd == 0 ==> Sum(sizes) == Replicas(sets))
            && (if toAdd >= 0 then added + Sum(sizes) - Replicas(sets) <= toAdd else added + Sum(sizes) - Replicas(sets) >= toAdd)
  {
    if sets != [] {
      var share := Proportion(sets[0], d, statusReplicas, toAdd, added);
      hide Fraction;
      FractionBounded(sets[0], d, statusReplicas);
      assert (toAdd >= 0 ==> added + share <= toAdd) && (toAdd < 0 ==> added + share >= toAdd);
      SharesBounded(sets[1..], d, statusReplicas, toAdd, added + share);
      var rest := Proportional(sets[1..], d, statusReplicas, toAdd, added + share);
      assert ([sets[0].replicas + share] + rest)[1..] == rest;
    }
  }

  lemma FractionBounded(rs: ReplicaSet, d: Deployment, statusReplicas: nat)
    ensures Fraction(rs, d, statusReplicas) + rs.replicas >= 0
  {
    hide MaxSurge;
    var before := if rs.maxReplicas == 0 then statusReplicas else rs.maxReplicas;
    if d.replicas > 0 && before > 0 {
      var size := rs.replicas * (d.replicas + MaxSurge(d));
      assert size >= 0 by { ProductPositive(rs.replicas, d.replicas + MaxSurge(d)); }
      RoundPositive(size, before);
    }
  }

  lemma ProductPositive(a: nat, b: nat)
    ensures a * b >= 0
  {
  }

  lemma RoundPositive(a: nat, b: nat)
    requires b > 0
    ensures Round(a, b) >= 0
  {
  }

  /** The sizes add up to what the deployment allows exactly when the first replica set can take the
      whole leftover, as it always can when the deployment grows; otherwise they add up to more. */
  lemma ScaleAddsUp(sets: seq<ReplicaSet>, d: Deployment, statusReplicas: nat)
    requires sets != []
    ensures var allowed := if d.replicas > 0 then d.replicas + MaxSurge(d) else 0;
            var toAdd := allowed - Replicas(sets);
            var sizes := Proportional(sets, d, statusReplicas, toAdd, 0);
            var leftover := toAdd - (Sum(sizes) - Replicas(sets));
            var final := ScaledSizes(sets, d, statusReplicas);
            && |sizes| == |final| == |sets| && (forall i :: 0 <= i < |final| ==> final[i] >= 0)
            && Sum(final) >= allowed
            && (Sum(final) == allowed <==> sizes[0] + leftover >= 0)
            && (toAdd >= 0 ==> Sum(final) == allowed)
  {
    var toAdd := Allowed(d) - Replicas(sets);
    SharesBounded(sets, d, statusReplicas, toAdd, 0);
    assert Allowed(d) == if d.replicas > 0 then d.replicas + MaxSurge(d) else 0;
    hide Proportional, Allowed, MaxSurge, Replicas;
    var sizes := Proportional(sets, d, statusReplicas, toAdd, 0);
    var leftover := toAdd - (Sum(sizes) - Replicas(sets));
    var first := AtLeast(sizes[0] + leftover, 0);
    assert ([first] + sizes[1..])[1..] == sizes[1..];
  }

  /** Without a record of earlier sizes nothing shrinks in proportion, and one replica set cannot
      take it all: two of three pods each end up with three pods where one is allowed. */
  lemma LeftoverExample()
    ensures var sets := [ReplicaSet(1, 1, 3, 3, 0), ReplicaSet(2, 2, 3, 3, 0)];
            var d := Deployment(1, Count(0), Count(1));
            Allowed(d) == 1 && ScaledSizes(sets, d, 0) == [0, 3]
  {
    var a, b := ReplicaSet(1, 1, 3, 3, 0), ReplicaSet(2, 2, 3, 3, 0);
    var d := Deployment(1, Count(0), Count(1));
    assert [a, b][1..] == [b] && [b][1..] == [] && [3, 3][1..] == [3] && [3][1..] == [];
    assert Replicas([b]) == 3 && Replicas([a, b]) == 6;
    assert Fraction(a, d, 0) == 0 && Fraction(b, d, 0) == 0;
    assert Proportional([], d, 0, -5, 0) == [] && Proportional([b], d, 0, -5, 0) == [3];
    assert Proportional([a, b], d, 0, -5, 0) == [3, 3];
    assert Sum([3]) == 3 && Sum([3, 3]) == 6;
  }

  lemma {:induction false} ProportionalSplit(sets: seq<ReplicaSet>, d: Deployment, statusReplicas: nat, toAdd: int, added: int, i: nat)
    requires i < |sets|
    ensures |Proportional(sets, d, statusReplicas, toAdd, added)| == |sets|
    ensures var before := Proportional(sets[..i], d, statusReplicas, toAdd, added);
            var share := Proportion(sets[i], d, statusReplicas, toAdd, added + Sum(before) - Replicas(sets[..i]));
            && Proportional(sets[..i + 1], d, statusReplicas, toAdd, added) == before + [sets[i].replicas + share]
            && Sum(before + [sets[i].replicas + share]) == Sum(before) + sets[i].replicas + share
            && Replicas(sets[..i + 1]) == Replicas(sets[..i]) + sets[i].replicas
  {
    hide Proportion;
    LengthKept(sets, d, statusReplicas, toAdd, added);
    assert sets[..i + 1] == sets[..i] + [sets[i]];
    SumsAppend(sets[..i], [sets[i]]);
    ProportionalAppend(sets[..i], sets[i], d, statusReplicas, toAdd, added);
    SumAppend(Proportional(sets[..i], d, statusReplicas, toAdd, added), sets[i].replicas +
      Proportion(sets[i], d, statusReplicas, toAdd, added + Sum(Proportional(sets[..i], d, statusReplicas, toAdd, added)) - Replicas(sets[..i])));
  }

  lemma {:induction false} LengthKept(sets: seq<ReplicaSet>, d: Deployment, statusReplicas: nat, toAdd: int, added: int)
    ensures |Proportional(sets, d, statusReplicas, toAdd, added)| == |sets|
  {
    hide Proportion;
    if sets != [] {
      LengthKept(sets[1..], d, statusReplicas, toAdd, added + Proportion(sets[0], d, statusReplicas, toAdd, added));
    }
  }

  lemma {:induction false} SumAppend(sizes: seq<int>, size: int)
    ensures Sum(sizes + [size]) == Sum(sizes) + size
  {
    if sizes != [] {
      assert (sizes + [size])[1..] == sizes[1..] + [size];
      SumAppend(sizes[1..], size);
    }
  }

  lemma {:induction false} ProportionalAppend(sets: seq<ReplicaSet>, rs: ReplicaSet, d: Deployment, statusReplicas: nat, toAdd: int, added: int)
    ensures var before := Proportional(sets, d, statusReplicas, toAdd, added);
            Proportional(sets + [rs], d, statusReplicas, toAdd, added) ==
            before + [rs.replicas + Proportion(rs, d, statusReplicas, toAdd, added + Sum(before) - Replicas(sets))]
  {
    hide Proportion;
    if sets == [] {
      assert [rs][1..] == [] && [] + [rs] == [rs];
      assert Proportional([], d, statusReplicas, toAdd, added + Proportion(rs, d, statusReplicas, toAdd, added)) == [];
    } else {
      var share := Proportion(sets[0], d, statusReplicas, toAdd, added);
      var rest := Proportional(sets[1..], d, statusReplicas, toAdd, added + share);
      assert (sets + [rs])[1..] == sets[1..] + [rs];
      ProportionalAppend(sets[1..], rs, d, statusReplicas, toAdd, added + share);
      assert ([sets[0].replicas + share] + rest)[1..] == rest;
    }
  }

  /** The sizes of the first replica sets, by name. */
  predicate SizesSoFar(nameToSize: map<nat, int>, sets: seq<ReplicaSet>, sizes: seq<int>) {
    |sizes| <= |sets| && forall j :: 0 <= j < |sizes| ==> sets[j].name in nameToSize && nameToSize[sets[j].name] == sizes[j]
  }

  lemma SizeAdded(nameToSize: map<nat, int>, sets: seq<ReplicaSet>, sizes: seq<int>, size: int)
    requires SizesSoFar(nameToSize, sets, sizes) && DistinctNames(sets) && |sizes| < |sets|
    ensures SizesSoFar(nameToSize[sets[|sizes|].name := size], sets, sizes + [size])
  {
    forall j | 0 <= j < |sizes|
      ensures sets[j].name != sets[|sizes|].name
    {
      assert !Clash(sets, j, |sizes|);
    }
  }

  lemma FirstSizeChanged(nameToSize: map<nat, int>, sets: seq<ReplicaSet>, sizes: seq<int>, size: int)
    requires SizesSoFar(nameToSize, sets, sizes) && DistinctNames(sets) && |sizes| == |sets| > 0
    ensures SizesSoFar(nameToSize[sets[0].name := size], sets, [size] + sizes[1..])
  {
    forall j | 0 < j < |sizes|
      ensures sets[0].name != sets[j].name
    {
      assert !Clash(sets, 0, j);
    }
  }

  /** The sizes by name: each in proportion, then the leftover to the first replica set. */
  method SizesByName(allRSs: seq<ReplicaSet>, deployment: Deployment, statusReplicas: nat) returns (nameToSize: map<nat, int>)
    requires DistinctNames(allRSs)
    ensures |ScaledSizes(allRSs, deployment, statusReplicas)| == |allRSs|
    ensures SizesSoFar(nameToSize, allRSs, ScaledSizes(allRSs, deployment, statusReplicas))
  {
    hide Proportional, Proportion, Replicas, Sum, Allowed, DistinctNames, SizesSoFar;
    var deploymentReplicasToAdd := Allowed(deployment) - Replicas(allRSs);
    LengthKept(allRSs, deployment, statusReplicas, deploymentReplicasToAdd, 0);
    var deploymentReplicasAdded := 0;
    nameToSize := map[];
    ghost var sizes: seq<int> := [];
    NothingShared(allRSs, deployment, statusReplicas, deploymentReplicasToAdd);
    for i := 0 to |allRSs|
      invariant |sizes| == i && sizes == Proportional(allRSs[..i], deployment, statusReplicas, deploymentReplicasToAdd, 0)
      invariant SizesSoFar(nameToSize, allRSs, sizes)
      invariant deploymentReplicasAdded == Sum(sizes) - Replicas(allRSs[..i])
    {
      hide Proportional, Proportion, Replicas, Sum, Allowed, DistinctNames, SizesSoFar;
      ProportionalSplit(allRSs, deployment, statusReplicas, deploymentReplicasToAdd, 0, i);
      var rs := allRSs[i];
      ghost var share := Proportion(rs, deployment, statusReplicas, deploymentReplicasToAdd, deploymentReplicasAdded);
      SizeAdded(nameToSize, allRSs, sizes, rs.replicas + share);
      if deploymentReplicasToAdd != 0 {
        var proportion := Proportion(rs, deployment, statusReplicas, deploymentReplicasToAdd, deploymentReplicasAdded);
        nameToSize := nameToSize[rs.name := rs.replicas + proportion];
        deploymentReplicasAdded := deploymentReplicasAdded + proportion;
      } else {
        NoShare(rs, deployment, statusReplicas, deploymentReplicasAdded);
        nameToSize := nameToSize[rs.name := rs.replicas];
      }
      sizes := sizes + [rs.replicas + share];
    }
    hide Proportional, Proportion, Replicas, Sum, Allowed, DistinctNames, SizesSoFar;
    assert allRSs[..|allRSs|] == allRSs;
    if |allRSs| > 0 && deploymentReplicasToAdd != 0 {
      var leftover := deploymentReplicasToAdd - deploymentReplicasAdded;
      HasFirst(nameToSize, allRSs, sizes);
      var first := AtLeast(nameToSize[allRSs[0].name] + leftover, 0);
      FirstSizeChanged(nameToSize, allRSs, sizes, first);
      nameToSize := nameToSize[allRSs[0].name := first];
    }
  }

  lemma HasFirst(nameToSize: map<nat, int>, sets: seq<ReplicaSet>, sizes: seq<int>)
    requires SizesSoFar(nameToSize, sets, sizes) && |sizes| > 0
    ensures sets[0].name in nameToSize && nameToSize[sets[0].name] == sizes[0]
  {
  }

  lemma NoShare(rs: ReplicaSet, d: Deployment, statusReplicas: nat, added: int)
    ensures Proportion(rs, d, statusReplicas, 0, added) == 0
  {
  }

  lemma NothingShared(sets: seq<ReplicaSet>, d: Deployment, statusReplicas: nat, toAdd: int)
    ensures Proportional(sets[..0], d, statusReplicas, toAdd, 0) == [] && Sum([]) - Replicas(sets[..0]) == 0
    ensures SizesSoFar(map[], sets, [])
  {
    assert sets[..0] == [];
  }
}
