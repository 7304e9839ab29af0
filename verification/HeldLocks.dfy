/** Locks and their clock together: a lease that is kept alive keeps its lock. */
module HeldLocks {
  import opened Text
  import opened Mvcc
  import EtcdSpec
  import Stores
  import Clocks
  import KeepAlive
  import Locks

  /** The clock, the lease whose timers it runs, and the locks over the store. */
  datatype World = World(config: Clocks.Config, lease: KeepAlive.Lease, locks: Locks.State)

  /** One move of the clock and the lock operations and requests that it leads to, in order. */
  datatype Event = Event(move: KeepAlive.Move, steps: seq<Locks.Step>)

  ghost function ApplyAll(s: Locks.State, steps: seq<Locks.Step>): Locks.State {
    if steps == [] then s else Locks.Apply(ApplyAll(s, steps[..|steps| - 1]), steps[|steps| - 1])
  }

  /** The move runs the callback that ends the lease. */
  predicate Expires(w: World, move: KeepAlive.Move) {
    move.Advance? &&
    var next := KeepAlive.Upcoming(w.config, move.target);
    next.Some? && next.value.callback == w.lease.onExpire
  }

  /** A lock that its holder does not give up: nothing but the expiry of the lease ends it. */
  ghost predicate Happens(program: Clocks.Program, locks: set<Str>, id: Locks.LeaseId, w: World, event: Event, v: World) {
    && KeepAlive.Moves(program, w.config, w.lease, event.move, v.config, v.lease)
    && v.locks == ApplyAll(w.locks, event.steps)
    && (forall i :: 0 <= i < |event.steps| ==> Locks.Fair(locks, event.steps[i]))
    && (Locks.DoRevoke(id) in event.steps ==> Expires(w, event.move))
  }

  ghost predicate Run(program: Clocks.Program, locks: set<Str>, id: Locks.LeaseId, worlds: seq<World>, events: seq<Event>) {
    && |worlds| == |events| + 1
    && forall i :: 0 <= i < |events| ==> Happens(program, locks, id, worlds[i], events[i], worlds[i + 1])
  }

  /** While the refresh is ahead of the expiry, no move runs the expiry. */
  lemma ArmedDoesNotExpire(w: World, move: KeepAlive.Move)
    requires KeepAlive.Armed(w.config, w.lease)
    ensures !Expires(w, move)
  {
    var refreshAt, expireAt :| KeepAlive.ArmedAt(w.config, w.lease, refreshAt, expireAt);
    if move.Advance? && w.config.mode.Picking? && Clocks.NextDue(w.config.tasks, move.target).Some? {
      KeepAlive.ExpiryNotNext(w.config, move.target, w.lease, refreshAt, expireAt);
    }
  }

  /** A step that does not end the lease leaves it its lock. */
  lemma StepHolds(s: Locks.State, locks: set<Str>, step: Locks.Step, key: Str, id: Locks.LeaseId)
    requires Locks.Exclusive(s, locks) && Locks.HeldBy(s, key, id) && step != Locks.DoRevoke(id)
    ensures Locks.HeldBy(Locks.Apply(s, step), key, id)
  {
    hide EtcdSpec.Txn, EtcdSpec.Delete, Stores.Serve, EtcdSpec.DbOk, Current;
  }

  lemma {:induction false} StepsHold(s: Locks.State, locks: set<Str>, steps: seq<Locks.Step>, key: Str, id: Locks.LeaseId)
    requires Locks.Exclusive(s, locks) && [] !in locks && Locks.HeldBy(s, key, id) && Locks.DoRevoke(id) !in steps
    requires forall i :: 0 <= i < |steps| ==> Locks.Fair(locks, steps[i])
    ensures Locks.Exclusive(ApplyAll(s, steps), locks) && Locks.HeldBy(ApplyAll(s, steps), key, id)
  {
    hide Locks.Exclusive, Locks.HeldBy, Locks.Apply, Locks.Fair;
    if steps != [] {
      var init, last := steps[..|steps| - 1], steps[|steps| - 1];
      assert forall x :: x in init ==> x in steps;
      assert last in steps;
      StepsHold(s, locks, init, key, id);
      StepHolds(ApplyAll(s, init), locks, last, key, id);
      Locks.StepKeeps(ApplyAll(s, init), locks, last);
    }
  }

  /** The lock of a lease of at least one second that nobody revokes or releases stays held, however
      far the clock advances and whatever else runs: in every state its key is there and no other
      lease holds it. */
  lemma {:induction false} KeptLockIsHeld(program: Clocks.Program, locks: set<Str>, key: Str, before: Locks.State,
                                          c: Clocks.Config, onExpire: Clocks.Callback, onRefresh: Clocks.Callback, ttl: real,
                                          worlds: seq<World>, events: seq<Event>, n: nat)
    requires Locks.Exclusive(before, locks) && [] !in locks && key in locks && Locks.Acquire(before, key).1
    requires ttl >= 1000.0 && onExpire != onRefresh && KeepAlive.Fresh(c, onExpire) && KeepAlive.Fresh(c, onRefresh)
    requires (c.mode.Picking? || c.mode.Finished?) && Clocks.DistinctHandles(c.tasks) && forall t :: t in c.tasks ==> t.handle < c.nextHandle
    requires Run(program, locks, before.nextLease, worlds, events) && n <= |events|
    requires (worlds[0].config, worlds[0].lease) == KeepAlive.Grant(c, onExpire, onRefresh, ttl)
    requires worlds[0].locks == Locks.Acquire(before, key).0
    ensures KeepAlive.Armed(worlds[n].config, worlds[n].lease) && Locks.Exclusive(worlds[n].locks, locks)
    ensures Locks.HeldBy(worlds[n].locks, key, before.nextLease) && key in Current(worlds[n].locks.db.log)
    ensures forall other :: Locks.HeldBy(worlds[n].locks, key, other) ==> other == before.nextLease
  {
    hide Clocks.DistinctHandles, Locks.Exclusive, Locks.Acquire, KeepAlive.Grant, KeepAlive.Armed, KeepAlive.Moves, KeepAlive.Fresh;
    if n == 0 {
      KeepAlive.GrantArms(c, onExpire, onRefresh, ttl);
      AcquireHolds(before, locks, key);
    } else {
      KeptLockIsHeld(program, locks, key, before, c, onExpire, onRefresh, ttl, worlds, events, n - 1);
      var w, event := worlds[n - 1], events[n - 1];
      assert Happens(program, locks, before.nextLease, w, event, worlds[n]);
      ArmedDoesNotExpire(w, event.move);
      KeepAlive.MoveKeeps(program, w.config, w.lease, event.move, worlds[n].config, worlds[n].lease);
      StepsHold(w.locks, locks, event.steps, key, before.nextLease);
    }
    HeldAlone(worlds[n].locks, locks, key, before.nextLease);
  }

  lemma AcquireHolds(s: Locks.State, locks: set<Str>, key: Str)
    requires Locks.Exclusive(s, locks) && [] !in locks && key in locks && Locks.Acquire(s, key).1
    ensures Locks.Exclusive(Locks.Acquire(s, key).0, locks) && Locks.HeldBy(Locks.Acquire(s, key).0, key, s.nextLease)
  {
    Locks.StepKeeps(s, locks, Locks.DoAcquire(key));
    hide EtcdSpec.Txn, Locks.Exclusive;
  }

  lemma HeldAlone(s: Locks.State, locks: set<Str>, key: Str, id: Locks.LeaseId)
    requires Locks.Exclusive(s, locks) && key in locks && Locks.HeldBy(s, key, id)
    ensures key in Current(s.db.log) && forall other :: Locks.HeldBy(s, key, other) ==> other == id
  {
    hide EtcdSpec.DbOk, Current;
  }
}
