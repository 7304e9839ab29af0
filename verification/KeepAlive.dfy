/** The timers of a lease on a lock: one that ends the lease, and an interval that puts it off. */
module KeepAlive {
  import opened Options
  import opened Clocks

  /** A lease: the handles of its two timers, what they run, and how long it lives unrefreshed. */
  datatype Lease = Lease(expire: nat, keepAlive: nat, onExpire: Callback, onRefresh: Callback, ttl: real)

  function Every(ttl: real): real {
    var third := (ttl / 3.0).Floor as real;
    if third < 1.0 then 1.0 else third
  }

  /** The timers that a new lease sets, in order. */
  function NewTimers(onExpire: Callback, onRefresh: Callback, ttl: real): seq<Action> {
    [SetTimeout(onExpire, ttl), SetInterval(onRefresh, Every(ttl))]
  }

  /** What a refresh does: it sets the expiry timer anew. */
  function Refresh(lease: Lease): seq<Action> {
    [ClearTimeout(lease.expire), SetTimeout(lease.onExpire, lease.ttl)]
  }

  /** An action that neither ends the lease nor passes for one of its callbacks. */
  predicate Spares(a: Action, lease: Lease) {
    match a
    case SetTimeout(callback, _) => callback != lease.onExpire && callback != lease.onRefresh
    case SetInterval(callback, _) => callback != lease.onExpire && callback != lease.onRefresh
    case ClearTimeout(handle) => handle != lease.expire && handle != lease.keepAlive
    case QueueMicrotask(callback) => callback != lease.onExpire && callback != lease.onRefresh
    case Throw => true
  }

  predicate SparesAll(actions: seq<Action>, lease: Lease) {
    forall i :: 0 <= i < |actions| ==> Spares(actions[i], lease)
  }

  /** A callback about to run, with the time and the log it sees. */
  datatype Running = Running(callback: Callback, time: real, log: seq<Entry>)

  /** The callback that the next move of a step runs. */
  function Upcoming(c: Config, target: real): Option<Running> {
    match c.mode
    case Picking =>
      var next := NextDue(c.tasks, target);
      if next.None? then None else Some(Running(next.value.callback, next.value.due, c.log))
    case Flushing(_) => if c.micro == [] then None else Some(Running(c.micro[0], c.now, c.log))
    case Settling => if c.micro == [] then None else Some(Running(c.micro[0], c.now, c.log))
    case Finished(_) => None
  }

  /** One move of a step: the refresh puts the expiry off, other callbacks leave the lease alone. */
  predicate Kept(program: Program, c: Config, target: real, lease: Lease, after: Lease) {
    var next := Upcoming(c, target);
    if next.None? then after == lease
    else
      var actions := program(next.value.callback, next.value.time, next.value.log);
      if next.value.callback == lease.onRefresh then actions == Refresh(lease) && after == lease.(expire := c.nextHandle)
      else SparesAll(actions, lease) && after == lease
  }

  function KeepAliveTask(lease: Lease, due: real): Task {
    Task(lease.keepAlive, lease.onRefresh, due, Some(Every(lease.ttl)))
  }

  function ExpireTask(lease: Lease, due: real): Task {
    Task(lease.expire, lease.onExpire, due, None)
  }

  predicate OwnTimer(lease: Lease, t: Task) {
    && (t.callback == lease.onExpire ==> t.handle == lease.expire)
    && (t.callback == lease.onRefresh ==> t.handle == lease.keepAlive)
  }

  /** The timers of the lease are set, and the lease's callbacks are nowhere else. */
  predicate Timers(c: Config, lease: Lease, refreshAt: real, expireAt: real) {
    && DistinctHandles(c.tasks)
    && (forall t :: t in c.tasks ==> t.handle < c.nextHandle && OwnTimer(lease, t))
    && KeepAliveTask(lease, refreshAt) in c.tasks && ExpireTask(lease, expireAt) in c.tasks
    && lease.onExpire !in c.micro && lease.onRefresh !in c.micro
    && (forall e :: e in c.log ==> e.callback != lease.onExpire)
  }

  /** The refresh comes before the expiry; while the refresh is running it has put the expiry off. */
  predicate InTime(mode: Mode, lease: Lease, refreshAt: real, expireAt: real) {
    if mode.Flushing? && mode.handle == lease.keepAlive then expireAt == refreshAt + lease.ttl
    else refreshAt < expireAt && mode != Flushing(lease.expire)
  }

  predicate ArmedAt(c: Config, lease: Lease, refreshAt: real, expireAt: real) {
    && lease.onExpire != lease.onRefresh && lease.ttl >= 1000.0
    && Timers(c, lease, refreshAt, expireAt)
    && InTime(c.mode, lease, refreshAt, expireAt)
  }

  ghost predicate Armed(c: Config, lease: Lease) {
    exists refreshAt, expireAt :: ArmedAt(c, lease, refreshAt, expireAt)
  }

  /** A lease is refreshed every third of its TTL, in whole milliseconds, and not more often than every
      millisecond. */
  lemma EveryIsThird(ttl: real)
    ensures Every(ttl) == Every(ttl).Floor as real
    ensures if ttl < 3.0 then Every(ttl) == 1.0 else 3.0 * Every(ttl) <= ttl < 3.0 * (Every(ttl) + 1.0)
  {
    assert ttl / 3.0 - 1.0 < (ttl / 3.0).Floor as real <= ttl / 3.0;
  }

  lemma EveryIsShort(ttl: real)
    requires ttl >= 1000.0
    ensures 1.0 <= Every(ttl) < ttl
  {
  }

  lemma AddSpares(c: Config, callback: Callback, due: real, interval: Option<real>, lease: Lease, refreshAt: real, expireAt: real)
    requires Timers(c, lease, refreshAt, expireAt) && callback != lease.onExpire && callback != lease.onRefresh
    ensures Timers(AddTask(c, callback, due, interval), lease, refreshAt, expireAt)
  {
    HandlesAppend(c.tasks, Task(c.nextHandle, callback, due, interval));
    hide DistinctHandles;
  }

  lemma ClearSpares(c: Config, handle: nat, lease: Lease, refreshAt: real, expireAt: real)
    requires Timers(c, lease, refreshAt, expireAt) && handle != lease.expire && handle != lease.keepAlive
    ensures Timers(c.(tasks := Without(c.tasks, handle)), lease, refreshAt, expireAt)
  {
    WithoutFacts(c.tasks, handle);
    hide DistinctHandles, Without;
  }

  lemma {:induction false} PerformSpares(c: Config, actions: seq<Action>, lease: Lease, refreshAt: real, expireAt: real)
    requires Timers(c, lease, refreshAt, expireAt) && SparesAll(actions, lease)
    ensures Timers(Perform(c, actions).0, lease, refreshAt, expireAt)
    decreases actions
  {
    hide Timers, Without;
    if actions != [] {
      var rest := actions[1..];
      assert Spares(actions[0], lease);
      assert SparesAll(rest, lease);
      match actions[0] {
        case SetTimeout(callback, delay) =>
          AddSpares(c, callback, c.now + AtLeastZero(delay), None, lease, refreshAt, expireAt);
          PerformSpares(AddTask(c, callback, c.now + AtLeastZero(delay), None), rest, lease, refreshAt, expireAt);
        case SetInterval(callback, interval) =>
          if interval > 0.0 {
            AddSpares(c, callback, c.now + interval, Some(interval), lease, refreshAt, expireAt);
            PerformSpares(AddTask(c, callback, c.now + interval, Some(interval)), rest, lease, refreshAt, expireAt);
          }
        case ClearTimeout(handle) =>
          ClearSpares(c, handle, lease, refreshAt, expireAt);
          PerformSpares(c.(tasks := Without(c.tasks, handle)), rest, lease, refreshAt, expireAt);
        case QueueMicrotask(callback) =>
          QueueSpares(c, callback, lease, refreshAt, expireAt);
          PerformSpares(c.(micro := c.micro + [callback]), rest, lease, refreshAt, expireAt);
        case Throw =>
      }
    }
  }

  lemma QueueSpares(c: Config, callback: Callback, lease: Lease, refreshAt: real, expireAt: real)
    requires Timers(c, lease, refreshAt, expireAt) && callback != lease.onExpire && callback != lease.onRefresh
    ensures Timers(c.(micro := c.micro + [callback]), lease, refreshAt, expireAt)
  {
    hide DistinctHandles, OwnTimer;
  }

  /** The refresh, run when its timer is due. */
  lemma RefreshPutsOff(c: Config, lease: Lease, refreshAt: real, expireAt: real)
    requires Timers(c, lease, refreshAt, expireAt) && lease.onExpire != lease.onRefresh && lease.ttl >= 0.0
    ensures !Perform(c, Refresh(lease)).1
    ensures Timers(Perform(c, Refresh(lease)).0, lease.(expire := c.nextHandle), refreshAt, c.now + lease.ttl)
  {
    var cleared := c.(tasks := Without(c.tasks, lease.expire));
    var after := AddTask(cleared, lease.onExpire, c.now + lease.ttl, None);
    assert Refresh(lease)[1..] == [SetTimeout(lease.onExpire, lease.ttl)];
    assert Refresh(lease)[1..][1..] == [];
    assert Perform(after, []) == (after, false);
    assert Perform(cleared, Refresh(lease)[1..]) == (after, false);
    assert Perform(c, Refresh(lease)) == (after, false);
    WithoutFacts(c.tasks, lease.expire);
    KeepAliveElsewhere(c, lease, refreshAt, expireAt);
    HandlesAppend(cleared.tasks, Task(c.nextHandle, lease.onExpire, c.now + lease.ttl, None));
    hide DistinctHandles, Without, Perform;
  }

  lemma KeepAliveElsewhere(c: Config, lease: Lease, refreshAt: real, expireAt: real)
    requires Timers(c, lease, refreshAt, expireAt) && lease.onExpire != lease.onRefresh
    ensures lease.keepAlive != lease.expire
  {
    var i :| 0 <= i < |c.tasks| && c.tasks[i] == KeepAliveTask(lease, refreshAt);
    var j :| 0 <= j < |c.tasks| && c.tasks[j] == ExpireTask(lease, expireAt);
    assert i != j;
  }

  /** Timers that stay after a callback has run. */
  lemma {:induction false} RearmKeeps(tasks: seq<Task>, handle: nat, t: Task)
    requires t in tasks && (t.handle != handle || t.interval.Some?)
    ensures (if t.handle != handle then t else t.(due := t.due + t.interval.value)) in Rearm(tasks, handle)
  {
    var init, last := tasks[..|tasks| - 1], tasks[|tasks| - 1];
    assert tasks == init + [last];
    if t in init {
      RearmKeeps(init, handle, t);
    }
  }

  lemma FinishKeeps(c: Config, handle: nat, lease: Lease, refreshAt: real, expireAt: real)
    requires ArmedAt(c, lease, refreshAt, expireAt) && c.mode == Flushing(handle)
    ensures Armed(Finish(c, handle), lease)
  {
    var after := Finish(c, handle);
    RearmFacts(c.tasks, handle);
    KeepAliveElsewhere(c, lease, refreshAt, expireAt);
    EveryIsShort(lease.ttl);
    RearmKeeps(c.tasks, handle, KeepAliveTask(lease, refreshAt));
    RearmKeeps(c.tasks, handle, ExpireTask(lease, expireAt));
    forall t | t in after.tasks
      ensures t.handle < c.nextHandle && OwnTimer(lease, t)
    {
      assert Rearmed(c.tasks, handle, t);
    }
    var refreshed := if handle == lease.keepAlive then refreshAt + Every(lease.ttl) else refreshAt;
    hide DistinctHandles, Rearm, Every, OwnTimer;
    assert Timers(after, lease, refreshed, expireAt);
    assert ArmedAt(after, lease, refreshed, expireAt);
  }

  /** Among the timers that come first, the refresh comes before the expiry. */
  lemma ExpiryNotNext(c: Config, target: real, lease: Lease, refreshAt: real, expireAt: real)
    requires ArmedAt(c, lease, refreshAt, expireAt) && c.mode.Picking? && NextDue(c.tasks, target).Some?
    ensures var task := NextDue(c.tasks, target).value;
            && task in c.tasks && task.handle != lease.expire && task.callback != lease.onExpire
            && (task.handle == lease.keepAlive <==> task.callback == lease.onRefresh)
            && (task.handle == lease.keepAlive ==> task.due == refreshAt)
  {
    var task := NextDue(c.tasks, target).value;
    NextDueMeaning(c.tasks, target);
    assert !Sooner(KeepAliveTask(lease, refreshAt), task);
    assert OwnTimer(lease, task);
    if task.handle == lease.expire {
      SameHandle(c.tasks, task, ExpireTask(lease, expireAt));
    }
    if task.handle == lease.keepAlive {
      SameHandle(c.tasks, task, KeepAliveTask(lease, refreshAt));
    }
  }

  lemma SameHandle(tasks: seq<Task>, a: Task, b: Task)
    requires DistinctHandles(tasks) && a in tasks && b in tasks && a.handle == b.handle
    ensures a == b
  {
    var i :| 0 <= i < |tasks| && tasks[i] == a;
    var j :| 0 <= j < |tasks| && tasks[j] == b;
  }

  lemma CallSpares(program: Program, c: Config, handle: Option<nat>, callback: Callback, lease: Lease, refreshAt: real, expireAt: real)
    requires Timers(c, lease, refreshAt, expireAt) && callback != lease.onExpire
    requires SparesAll(program(callback, c.now, c.log), lease)
    ensures Timers(Call(program, c, handle, callback).0, lease, refreshAt, expireAt)
  {
    hide DistinctHandles, OwnTimer, Perform, SparesAll;
    PerformSpares(c.(log := c.log + [Entry(c.now, handle, callback)]), program(callback, c.now, c.log), lease, refreshAt, expireAt);
  }

  /** A move that starts the callback of a timer. */
  lemma PickKeeps(program: Program, c: Config, target: real, lease: Lease, after: Lease, refreshAt: real, expireAt: real)
    requires ArmedAt(c, lease, refreshAt, expireAt) && c.mode.Picking? && NextDue(c.tasks, target).Some?
    requires Kept(program, c, target, lease, after)
    ensures Armed(Next(program, c, target), after)
  {
    var task := NextDue(c.tasks, target).value;
    ExpiryNotNext(c, target, lease, refreshAt, expireAt);
    KeepAliveElsewhere(c, lease, refreshAt, expireAt);
    hide NextDue, Timers, Perform, SparesAll, Refresh;
    var timed := c.(now := task.due);
    assert Timers(timed, lease, refreshAt, expireAt) by { TimeApart(c, timed, lease, refreshAt, expireAt); }
    var (called, threw) := Call(program, timed, Some(task.handle), task.callback);
    if task.callback == lease.onRefresh {
      RefreshCall(program, timed, Some(task.handle), lease, refreshAt, expireAt);
      assert called.(mode := Flushing(task.handle)) == Next(program, c, target);
      TimeApart(called, called.(mode := Flushing(task.handle)), after, refreshAt, refreshAt + lease.ttl);
      assert ArmedAt(Next(program, c, target), after, refreshAt, refreshAt + lease.ttl);
    } else {
      CallSpares(program, timed, Some(task.handle), task.callback, lease, refreshAt, expireAt);
      var flushing := called.(mode := Flushing(task.handle));
      TimeApart(called, flushing, lease, refreshAt, expireAt);
      assert ArmedAt(flushing, lease, refreshAt, expireAt);
      FinishKeeps(flushing, task.handle, lease, refreshAt, expireAt);
      assert Finish(flushing, task.handle) == Finish(called, task.handle);
    }
  }

  lemma TimeApart(c: Config, d: Config, lease: Lease, refreshAt: real, expireAt: real)
    requires Timers(c, lease, refreshAt, expireAt)
    requires d.tasks == c.tasks && d.nextHandle == c.nextHandle && d.micro == c.micro && d.log == c.log
    ensures Timers(d, lease, refreshAt, expireAt)
  {
  }

  lemma RefreshCall(program: Program, c: Config, handle: Option<nat>, lease: Lease, refreshAt: real, expireAt: real)
    requires Timers(c, lease, refreshAt, expireAt) && lease.onExpire != lease.onRefresh && lease.ttl >= 0.0
    requires program(lease.onRefresh, c.now, c.log) == Refresh(lease)
    ensures var (called, threw) := Call(program, c, handle, lease.onRefresh);
            !threw && Timers(called, lease.(expire := c.nextHandle), refreshAt, c.now + lease.ttl)
  {
    var logged := c.(log := c.log + [Entry(c.now, handle, lease.onRefresh)]);
    assert Timers(logged, lease, refreshAt, expireAt) by { hide DistinctHandles, OwnTimer; }
    RefreshPutsOff(logged, lease, refreshAt, expireAt);
  }

  /** Every move of a step keeps the timers of the lease. */
  lemma NextKeeps(program: Program, c: Config, target: real, lease: Lease, after: Lease)
    requires Armed(c, lease) && Kept(program, c, target, lease, after)
    ensures Armed(Next(program, c, target), after)
  {
    var refreshAt, expireAt :| ArmedAt(c, lease, refreshAt, expireAt);
    if c.mode.Picking? {
      if NextDue(c.tasks, target).Some? {
        PickKeeps(program, c, target, lease, after, refreshAt, expireAt);
      } else {
        assert ArmedAt(Next(program, c, target), lease, refreshAt, expireAt);
      }
    } else if c.mode.Finished? {
    } else if c.micro == [] {
      if c.mode.Flushing? {
        FinishKeeps(c, c.mode.handle, lease, refreshAt, expireAt);
      } else {
        assert ArmedAt(Next(program, c, target), lease, refreshAt, expireAt);
      }
    } else {
      MicrotaskKeeps(program, c, target, lease, after, refreshAt, expireAt);
    }
  }

  lemma MicrotaskKeeps(program: Program, c: Config, target: real, lease: Lease, after: Lease, refreshAt: real, expireAt: real)
    requires ArmedAt(c, lease, refreshAt, expireAt) && (c.mode.Flushing? || c.mode.Settling?) && c.micro != []
    requires Kept(program, c, target, lease, after)
    ensures Armed(Next(program, c, target), after)
  {
    hide DistinctHandles, OwnTimer, Perform, SparesAll, Refresh;
    var taken := c.(micro := c.micro[1..]);
    assert c.micro[0] in c.micro;
    assert Timers(taken, lease, refreshAt, expireAt);
    CallSpares(program, taken, None, c.micro[0], lease, refreshAt, expireAt);
    var (called, threw) := Call(program, taken, None, c.micro[0]);
    assert ArmedAt(called, lease, refreshAt, expireAt);
    if threw && c.mode.Flushing? {
      FinishKeeps(called, c.mode.handle, lease, refreshAt, expireAt);
    } else if threw {
      assert ArmedAt(called.(mode := Finished(true)), lease, refreshAt, expireAt);
    }
  }

  // ----- runs -----

  /** A move of a step towards a target, or what happens between two steps. */
  datatype Move = Advance(target: real) | Outside(actions: seq<Action>)

  predicate Moves(program: Program, c: Config, lease: Lease, move: Move, d: Config, after: Lease) {
    match move
    case Advance(target) => d == Next(program, c, target) && Kept(program, c, target, lease, after)
    case Outside(actions) =>
      && (c.mode.Finished? || c.mode.Picking?)
      && SparesAll(actions, lease) && after == lease
      && d == Again(Perform(c, actions).0)
  }

  lemma MoveKeeps(program: Program, c: Config, lease: Lease, move: Move, d: Config, after: Lease)
    requires Armed(c, lease) && Moves(program, c, lease, move, d, after)
    ensures Armed(d, after)
  {
    hide Next, Perform, Kept;
    match move {
      case Advance(target) => NextKeeps(program, c, target, lease, after);
      case Outside(actions) =>
        var refreshAt, expireAt :| ArmedAt(c, lease, refreshAt, expireAt);
        PerformSpares(c, actions, lease, refreshAt, expireAt);
        TimeApart(Perform(c, actions).0, d, lease, refreshAt, expireAt);
        assert ArmedAt(d, lease, refreshAt, expireAt);
    }
  }

  /** The lease that `NewTimers` makes on an idle clock. */
  function Grant(c: Config, onExpire: Callback, onRefresh: Callback, ttl: real): (Config, Lease) {
    (Perform(c, NewTimers(onExpire, onRefresh, ttl)).0, Lease(c.nextHandle, c.nextHandle + 1, onExpire, onRefresh, ttl))
  }

  /** The callbacks of a new lease are nowhere on the clock. */
  predicate Fresh(c: Config, callback: Callback) {
    && callback !in c.micro
    && (forall t :: t in c.tasks ==> t.callback != callback)
    && (forall e :: e in c.log ==> e.callback != callback)
  }

  lemma GrantArms(c: Config, onExpire: Callback, onRefresh: Callback, ttl: real)
    requires ttl >= 1000.0 && onExpire != onRefresh && Fresh(c, onExpire) && Fresh(c, onRefresh)
    requires (c.mode.Picking? || c.mode.Finished?) && DistinctHandles(c.tasks) && forall t :: t in c.tasks ==> t.handle < c.nextHandle
    ensures Armed(Grant(c, onExpire, onRefresh, ttl).0, Grant(c, onExpire, onRefresh, ttl).1)
  {
    EveryIsShort(ttl);
    var actions := NewTimers(onExpire, onRefresh, ttl);
    var one := AddTask(c, onExpire, c.now + ttl, None);
    var two := AddTask(one, onRefresh, c.now + Every(ttl), Some(Every(ttl)));
    assert actions[1..] == [SetInterval(onRefresh, Every(ttl))] && actions[1..][1..] == [];
    assert Perform(two, []) == (two, false);
    assert Perform(one, actions[1..]) == (two, false);
    assert Perform(c, actions) == (two, false);
    HandlesAppend(c.tasks, Task(c.nextHandle, onExpire, c.now + ttl, None));
    HandlesAppend(one.tasks, Task(one.nextHandle, onRefresh, c.now + Every(ttl), Some(Every(ttl))));
    hide DistinctHandles, Perform, Every;
    assert ArmedAt(two, Grant(c, onExpire, onRefresh, ttl).1, c.now + Every(ttl), c.now + ttl);
  }

  predicate Run(program: Program, configs: seq<Config>, leases: seq<Lease>, moves: seq<Move>) {
    && |configs| == |leases| == |moves| + 1
    && forall i :: 0 <= i < |moves| ==> Moves(program, configs[i], leases[i], moves[i], configs[i + 1], leases[i + 1])
  }

  /** A lease of at least one second that is neither revoked nor released never expires, however far
      and in however many steps the clock advances: its expiry callback never runs. */
  lemma {:induction false} NeverExpires(program: Program, c: Config, onExpire: Callback, onRefresh: Callback, ttl: real,
                                        configs: seq<Config>, leases: seq<Lease>, moves: seq<Move>, n: nat)
    requires ttl >= 1000.0 && onExpire != onRefresh && Fresh(c, onExpire) && Fresh(c, onRefresh)
    requires (c.mode.Picking? || c.mode.Finished?) && DistinctHandles(c.tasks) && forall t :: t in c.tasks ==> t.handle < c.nextHandle
    requires Run(program, configs, leases, moves) && n <= |moves|
    requires (configs[0], leases[0]) == Grant(c, onExpire, onRefresh, ttl)
    ensures Armed(configs[n], leases[n]) && leases[n].onExpire == onExpire
    ensures forall e :: e in configs[n].log ==> e.callback != onExpire
  {
    hide Moves;
    if n == 0 {
      GrantArms(c, onExpire, onRefresh, ttl);
    } else {
      NeverExpires(program, c, onExpire, onRefresh, ttl, configs, leases, moves, n - 1);
      MoveKeeps(program, configs[n - 1], leases[n - 1], moves[n - 1], configs[n], leases[n]);
      SameCallbacks(program, configs[n - 1], leases[n - 1], moves[n - 1], configs[n], leases[n]);
    }
    ArmedIsQuiet(configs[n], leases[n]);
  }

  lemma SameCallbacks(program: Program, c: Config, lease: Lease, move: Move, d: Config, after: Lease)
    requires Moves(program, c, lease, move, d, after)
    ensures after.onExpire == lease.onExpire
  {
    hide Next, Perform, SparesAll, Refresh;
  }

  lemma ArmedIsQuiet(c: Config, lease: Lease)
    requires Armed(c, lease)
    ensures forall e :: e in c.log ==> e.callback != lease.onExpire
  {
    hide DistinctHandles, OwnTimer;
  }

  /** A released lease, whose refreshes have been called off, ends when its last expiry is due. */
  lemma ReleasedExpires(program: Program, c: Config, lease: Lease, refreshAt: real, expireAt: real, target: real, n: nat, end: Config)
    requires ArmedAt(c, lease, refreshAt, expireAt) && c.mode.Picking? && InOrder(c, None)
    requires c.now <= target && expireAt <= target && NeverClears(program, lease.expire)
    requires EndsAt(program, c.(tasks := Without(c.tasks, lease.keepAlive)), target, n, end)
    ensures Entry(expireAt, Some(lease.expire), lease.onExpire) in end.log
  {
    WithoutFacts(c.tasks, lease.keepAlive);
    KeepAliveElsewhere(c, lease, refreshAt, expireAt);
    ClearKeepsOrder(c, lease.keepAlive, None);
    hide InOrder, Without, DistinctHandles, Iterate, NeverClears;
    DueTimerRuns(program, c.(tasks := Without(c.tasks, lease.keepAlive)), target, n, end, ExpireTask(lease, expireAt));
  }
}
