/** The simulated clock while it is paused: timers, intervals and microtasks, run by `step`. */
module Clocks {
  import opened Options

  type Callback = nat

  datatype Task = Task(handle: nat, callback: Callback, due: real, interval: Option<real>)

  /** A callback that ran: a timer's, with its handle, or a microtask. */
  datatype Entry = Entry(time: real, handle: Option<nat>, callback: Callback)

  /** What a callback asks of the clock. */
  datatype Action =
    | SetTimeout(callback: Callback, delay: real)
    | SetInterval(callback: Callback, interval: real)
    | ClearTimeout(handle: nat)
    | QueueMicrotask(callback: Callback)
    | Throw

  /** What each callback does, given the time and everything that ran before it. */
  type Program = (Callback, real, seq<Entry>) -> seq<Action>

  /** Where `step` stands: picking the next due timer, flushing microtasks after the callback of a
      timer, flushing them at the end, or finished. */
  datatype Mode = Picking | Flushing(handle: nat) | Settling | Finished(threw: bool)

  datatype Config = Config(now: real, tasks: seq<Task>, nextHandle: nat, micro: seq<Callback>, log: seq<Entry>, mode: Mode)

  // ----- timers -----

  predicate Sooner(a: Task, b: Task) {
    a.due < b.due || (a.due == b.due && a.handle < b.handle)
  }

  /** The scan for the next due timer. */
  function NextDue(tasks: seq<Task>, target: real): Option<Task> {
    if tasks == [] then None
    else
      var next, task := NextDue(tasks[..|tasks| - 1], target), tasks[|tasks| - 1];
      if task.due > target then next
      else if next.None? || Sooner(task, next.value) then Some(task)
      else next
  }

  function Without(tasks: seq<Task>, handle: nat): seq<Task> {
    if tasks == [] then []
    else
      var before, last := Without(tasks[..|tasks| - 1], handle), tasks[|tasks| - 1];
      if last.handle == handle then before else before + [last]
  }

  /** A timer whose callback has run goes, or waits for its next interval. */
  function Rearm(tasks: seq<Task>, handle: nat): seq<Task> {
    if tasks == [] then []
    else
      var before, last := Rearm(tasks[..|tasks| - 1], handle), tasks[|tasks| - 1];
      if last.handle != handle then before + [last]
      else if last.interval.None? then before
      else before + [last.(due := last.due + last.interval.value)]
  }

  function AddTask(c: Config, callback: Callback, due: real, interval: Option<real>): Config {
    c.(tasks := c.tasks + [Task(c.nextHandle, callback, due, interval)], nextHandle := c.nextHandle + 1)
  }

  function AtLeastZero(delay: real): real {
    if delay < 0.0 then 0.0 else delay
  }

  /** The effects of a callback, up to an exception. */
  function Perform(c: Config, actions: seq<Action>): (r: (Config, bool))
    ensures r.0.mode == c.mode && r.0.now == c.now && r.0.log == c.log && c.nextHandle <= r.0.nextHandle
    decreases actions
  {
    if actions == [] then (c, false)
    else match actions[0]
      case SetTimeout(callback, delay) => Perform(AddTask(c, callback, c.now + AtLeastZero(delay), None), actions[1..])
      case SetInterval(callback, interval) =>
        if interval <= 0.0 then (c, true) else Perform(AddTask(c, callback, c.now + interval, Some(interval)), actions[1..])
      case ClearTimeout(handle) => Perform(c.(tasks := Without(c.tasks, handle)), actions[1..])
      case QueueMicrotask(callback) => Perform(c.(micro := c.micro + [callback]), actions[1..])
      case Throw => (c, true)
  }

  /** Runs one callback at the current time. */
  function Call(program: Program, c: Config, handle: Option<nat>, callback: Callback): (Config, bool) {
    Perform(c.(log := c.log + [Entry(c.now, handle, callback)]), program(callback, c.now, c.log))
  }

  function Finish(c: Config, handle: nat): Config {
    c.(tasks := Rearm(c.tasks, handle), mode := Picking)
  }

  // ----- one move of a step towards `target` -----

  function Pick(program: Program, c: Config, target: real): Config {
    var next := NextDue(c.tasks, target);
    if next.None? then c.(now := target, mode := Settling)
    else
      var task := next.value;
      var (after, threw) := Call(program, c.(now := task.due), Some(task.handle), task.callback);
      if threw then Finish(after, task.handle) else after.(mode := Flushing(task.handle))
  }

  function Next(program: Program, c: Config, target: real): Config {
    match c.mode
    case Picking => Pick(program, c, target)
    case Flushing(handle) =>
      if c.micro == [] then Finish(c, handle)
      else
        var (after, threw) := Call(program, c.(micro := c.micro[1..]), None, c.micro[0]);
        if threw then Finish(after, handle) else after
    case Settling =>
      if c.micro == [] then c.(mode := Finished(false))
      else
        var (after, threw) := Call(program, c.(micro := c.micro[1..]), None, c.micro[0]);
        if threw then after.(mode := Finished(true)) else after
    case Finished(_) => c
  }

  function Iterate(program: Program, c: Config, target: real, n: nat): Config {
    if n == 0 then c else Next(program, Iterate(program, c, target, n - 1), target)
  }

  /** Ready for the next step. */
  function Again(c: Config): Config {
    c.(mode := Picking)
  }

  // ----- the scan -----

  predicate DistinctHandles(tasks: seq<Task>) {
    forall i, j :: 0 <= i < j < |tasks| ==> tasks[i].handle != tasks[j].handle
  }

  /** The scan finds the due timer that comes first by due time, then by handle. */
  lemma {:induction false} NextDueMeaning(tasks: seq<Task>, target: real)
    ensures NextDue(tasks, target).None? <==> forall t :: t in tasks ==> t.due > target
    ensures NextDue(tasks, target).Some? ==>
              var next := NextDue(tasks, target).value;
              next in tasks && next.due <= target && forall t :: t in tasks ==> !Sooner(t, next)
  {
    if tasks != [] {
      NextDueMeaning(tasks[..|tasks| - 1], target);
      assert tasks == tasks[..|tasks| - 1] + [tasks[|tasks| - 1]];
    }
  }

  /** A later target finds the same timer, if the earlier one finds any. */
  lemma {:induction false} SameDue(tasks: seq<Task>, low: real, high: real)
    requires low <= high && NextDue(tasks, low).Some?
    ensures NextDue(tasks, high) == NextDue(tasks, low)
  {
    var init, last := tasks[..|tasks| - 1], tasks[|tasks| - 1];
    NextDueMeaning(init, low);
    NextDueMeaning(init, high);
    if NextDue(init, low).Some? {
      SameDue(init, low, high);
    }
  }

  // ----- composing steps -----

  /** Up to the last timer due by the earlier target, both targets make the same moves. */
  lemma SameMove(program: Program, c: Config, low: real, high: real)
    requires low <= high && Busy(c, low)
    ensures Next(program, c, high) == Next(program, c, low)
  {
    if c.mode.Picking? {
      SameDue(c.tasks, low, high);
    }
  }

  /** The first moment at which nothing is due by `target` any more. */
  predicate Drained(program: Program, c: Config, target: real, n: nat) {
    && Iterate(program, c, target, n).mode.Picking?
    && NextDue(Iterate(program, c, target, n).tasks, target).None?
    && forall k :: 0 <= k < n ==> Busy(Iterate(program, c, target, k), target)
  }

  predicate Busy(c: Config, target: real) {
    c.mode.Flushing? || (c.mode.Picking? && NextDue(c.tasks, target).Some?)
  }

  lemma {:induction false} SameMoves(program: Program, c: Config, low: real, high: real, n: nat)
    requires low <= high && forall k :: 0 <= k < n ==> Busy(Iterate(program, c, low, k), low)
    ensures Iterate(program, c, high, n) == Iterate(program, c, low, n)
  {
    hide Iterate, Next, NextDue, Busy;
    if n == 0 {
      NoMoves(program, c, low);
      NoMoves(program, c, high);
    } else {
      SameMoves(program, c, low, high, n - 1);
      SameMove(program, Iterate(program, c, low, n - 1), low, high);
      OneMoreMove(program, c, low, n - 1);
      OneMoreMove(program, c, high, n - 1);
    }
  }

  lemma NoMoves(program: Program, c: Config, target: real)
    ensures Iterate(program, c, target, 0) == c
  {
  }

  lemma OneMoreMove(program: Program, c: Config, target: real, n: nat)
    ensures Iterate(program, c, target, n + 1) == Next(program, Iterate(program, c, target, n), target)
  {
  }

  lemma {:induction false} IterateFrom(program: Program, c: Config, target: real, m: nat, n: nat)
    ensures Iterate(program, Iterate(program, c, target, m), target, n) == Iterate(program, c, target, m + n)
  {
    hide Next;
    if n > 0 {
      IterateFrom(program, c, target, m, n - 1);
    }
  }

  /** The time shown while picking does not matter: the next move sets it. */
  lemma {:induction false} TimeIsSet(program: Program, c: Config, now: real, target: real, n: nat)
    requires c.mode.Picking? && n > 0
    ensures Iterate(program, c.(now := now), target, n) == Iterate(program, c, target, n)
  {
    if n > 1 {
      TimeIsSet(program, c, now, target, n - 1);
    } else {
      assert Iterate(program, c.(now := now), target, 0) == c.(now := now);
      assert Iterate(program, c, target, 0) == c;
    }
  }

  lemma {:induction false} StaysFinished(program: Program, c: Config, target: real, m: nat, n: nat)
    requires m <= n && Iterate(program, c, target, m).mode.Finished?
    ensures Iterate(program, c, target, n) == Iterate(program, c, target, m)
  {
    if n > m {
      StaysFinished(program, c, target, m, n - 1);
      assert Iterate(program, c, target, n) == Next(program, Iterate(program, c, target, n - 1), target);
      hide Iterate, Call;
    }
  }

  lemma BusyGoesOn(program: Program, c: Config, target: real)
    requires Busy(c, target)
    ensures Next(program, c, target).mode.Picking? || Next(program, c, target).mode.Flushing?
  {
  }

  /** A step that ends has a moment at which its timers are drained. */
  lemma {:induction false} DrainsFirst(program: Program, c: Config, target: real, n: nat) returns (m: nat)
    requires c.mode.Picking? && Iterate(program, c, target, n).mode.Finished?
    ensures m < n && Drained(program, c, target, m)
  {
    m := FirstIdle(program, c, target, n);
  }

  lemma {:induction false} FirstIdle(program: Program, c: Config, target: real, n: nat) returns (m: nat)
    requires c.mode.Picking? && !Busy(Iterate(program, c, target, n), target)
    ensures m <= n && Drained(program, c, target, m)
    ensures Iterate(program, c, target, n).mode.Finished? ==> m < n
  {
    if k: nat :| k < n && !Busy(Iterate(program, c, target, k), target) {
      m := FirstIdle(program, c, target, k);
    } else {
      m := n;
      if n > 0 {
        BusyGoesOn(program, Iterate(program, c, target, n - 1), target);
      }
    }
  }

  /** Where a step ends, when it ends. */
  predicate EndsAt(program: Program, c: Config, target: real, n: nat, end: Config) {
    end.mode.Finished? && Iterate(program, c, target, n) == end
  }

  lemma OneEnd(program: Program, c: Config, target: real, m: nat, n: nat, a: Config, b: Config)
    requires EndsAt(program, c, target, m, a) && EndsAt(program, c, target, n, b)
    ensures a == b
  {
    hide Iterate;
    if m <= n {
      StaysFinished(program, c, target, m, n);
    } else {
      StaysFinished(program, c, target, n, m);
    }
  }

  lemma TwoMoves(program: Program, c: Config, target: real, n: nat)
    ensures Iterate(program, c, target, n + 1) == Next(program, Iterate(program, c, target, n), target)
    ensures Iterate(program, c, target, n + 2) == Next(program, Next(program, Iterate(program, c, target, n), target), target)
  {
    assert Iterate(program, c, target, n + 2) == Next(program, Iterate(program, c, target, n + 1), target);
  }

  /** With no microtask left, a step ends two moves after its timers are drained, and only the time
      has changed. */
  lemma EndsQuietly(program: Program, c: Config, target: real, drained: nat)
    requires Drained(program, c, target, drained) && Iterate(program, c, target, drained).micro == []
    ensures var d := Iterate(program, c, target, drained);
            EndsAt(program, c, target, drained + 2, d.(now := target, mode := Finished(false)))
  {
    TwoMoves(program, c, target, drained);
    hide Iterate;
  }

  /** Two successive steps end where the single step to the later target ends, if no microtask is
      left when the timers of the first are drained. */
  lemma StepsCompose(program: Program, c: Config, low: real, high: real, drained: nat, m: nat, mid: Config, n: nat, end: Config)
    requires c.mode.Picking? && low <= high && Drained(program, c, low, drained)
    requires EndsAt(program, c, low, m, mid) && EndsAt(program, Again(mid), high, n, end)
    requires Iterate(program, c, low, drained).micro == []
    ensures EndsAt(program, c, high, drained + n, end)
  {
    hide Next;
    var d := Iterate(program, c, low, drained);
    SameMoves(program, c, low, high, drained);
    EndsQuietly(program, c, low, drained);
    OneEnd(program, c, low, m, drained + 2, mid, d.(now := low, mode := Finished(false)));
    assert Again(mid) == d.(now := low);
    assert n > 0;
    TimeIsSet(program, d, low, high, n);
    IterateFrom(program, c, high, drained, n);
  }

  // ----- what a callback asks for -----

  predicate Raises(action: Action) {
    action.Throw? || (action.SetInterval? && action.interval <= 0.0)
  }

  /** How many actions a callback performs: those before the first that raises an exception. */
  function Performed(actions: seq<Action>): (n: nat)
    ensures n <= |actions| && (forall i :: 0 <= i < n ==> !Raises(actions[i])) && (n < |actions| ==> Raises(actions[n]))
  {
    if actions == [] || Raises(actions[0]) then 0 else 1 + Performed(actions[1..])
  }

  /** The microtasks that actions queue, in order. */
  function Queues(actions: seq<Action>): seq<Callback> {
    if actions == [] then []
    else
      var before, last := Queues(actions[..|actions| - 1]), actions[|actions| - 1];
      if last.QueueMicrotask? then before + [last.callback] else before
  }

  /** How many timers actions set. */
  function Sets(actions: seq<Action>): nat {
    if actions == [] then 0
    else Sets(actions[..|actions| - 1]) + if actions[|actions| - 1].SetTimeout? || actions[|actions| - 1].SetInterval? then 1 else 0
  }

  predicate Clears(actions: seq<Action>, handle: nat) {
    exists i :: 0 <= i < |actions| && actions[i] == ClearTimeout(handle)
  }

  /** The timer that one action sets: due after its delay, or now if that is negative. */
  predicate SetsTimer(action: Action, now: real, handle: nat, t: Task) {
    match action
    case SetTimeout(callback, delay) => t == Task(handle, callback, if delay > 0.0 then now + delay else now, None)
    case SetInterval(callback, interval) => t == Task(handle, callback, now + interval, Some(interval))
    case _ => false
  }

  /** A timer that actions set and do not clear again, under the next handle that is free. */
  predicate SetBy(actions: seq<Action>, now: real, nextHandle: nat, t: Task) {
    exists i :: 0 <= i < |actions| && SetAt(actions, now, nextHandle, t, i)
  }

  lemma {:induction false} SetsCons(action: Action, rest: seq<Action>)
    ensures Sets([action] + rest) == (if action.SetTimeout? || action.SetInterval? then 1 else 0) + Sets(rest)
    ensures Queues([action] + rest) == (if action.QueueMicrotask? then [action.callback] else []) + Queues(rest)
  {
    if rest == [] {
      assert [action] + rest == [action] && [action][..0] == [];
      assert Sets([]) == 0 && Queues([]) == [];
    } else {
      SetsCons(action, rest[..|rest| - 1]);
      assert ([action] + rest)[..|rest|] == [action] + rest[..|rest| - 1];
    }
  }

  lemma ClearsCons(action: Action, rest: seq<Action>, handle: nat)
    ensures Clears([action] + rest, handle) <==> action == ClearTimeout(handle) || Clears(rest, handle)
  {
    var all := [action] + rest;
    if Clears(rest, handle) {
      var i :| 0 <= i < |rest| && rest[i] == ClearTimeout(handle);
      assert all[i + 1] == ClearTimeout(handle);
    }
    if Clears(all, handle) && action != ClearTimeout(handle) {
      var i :| 0 <= i < |all| && all[i] == ClearTimeout(handle);
      assert rest[i - 1] == ClearTimeout(handle);
    }
    if action == ClearTimeout(handle) {
      assert all[0] == ClearTimeout(handle);
    }
  }

  /** One action of a list that sets a timer for good. */
  predicate SetAt(actions: seq<Action>, now: real, nextHandle: nat, t: Task, i: nat)
    requires i < |actions|
  {
    SetsTimer(actions[i], now, nextHandle + Sets(actions[..i]), t) && !Clears(actions[i + 1..], t.handle)
  }

  lemma SetAtCons(action: Action, rest: seq<Action>, now: real, nextHandle: nat, t: Task, i: nat)
    requires i < |rest|
    ensures var k := if action.SetTimeout? || action.SetInterval? then 1 else 0;
            SetAt([action] + rest, now, nextHandle, t, i + 1) <==> SetAt(rest, now, nextHandle + k, t, i)
  {
    hide Clears, SetsTimer;
    var all := [action] + rest;
    assert all[i + 1] == rest[i] && all[i + 2..] == rest[i + 1..] && all[..i + 1] == [action] + rest[..i];
    SetsCons(action, rest[..i]);
  }

  lemma SetAtFirst(action: Action, rest: seq<Action>, now: real, nextHandle: nat, t: Task)
    ensures SetAt([action] + rest, now, nextHandle, t, 0) <==> SetsTimer(action, now, nextHandle, t) && !Clears(rest, t.handle)
  {
    var all := [action] + rest;
    assert all[..0] == [] && Sets([]) == 0 && all[1..] == rest;
  }

  lemma SetByCons(action: Action, rest: seq<Action>, now: real, nextHandle: nat, t: Task)
    ensures var k := if action.SetTimeout? || action.SetInterval? then 1 else 0;
            SetBy([action] + rest, now, nextHandle, t) <==>
            (SetsTimer(action, now, nextHandle, t) && !Clears(rest, t.handle)) || SetBy(rest, now, nextHandle + k, t)
  {
    hide SetAt, Clears, SetsTimer;
    var all := [action] + rest;
    var k := if action.SetTimeout? || action.SetInterval? then 1 else 0;
    SetAtFirst(action, rest, now, nextHandle, t);
    if SetBy(rest, now, nextHandle + k, t) {
      var i :| 0 <= i < |rest| && SetAt(rest, now, nextHandle + k, t, i);
      SetAtCons(action, rest, now, nextHandle, t, i);
      assert SetAt(all, now, nextHandle, t, i + 1);
    }
    if SetBy(all, now, nextHandle, t) {
      var i :| 0 <= i < |all| && SetAt(all, now, nextHandle, t, i);
      if i > 0 {
        SetAtCons(action, rest, now, nextHandle, t, i - 1);
        assert SetAt(rest, now, nextHandle + k, t, i - 1);
      }
    }
  }

  lemma {:induction false} WithoutMembers(tasks: seq<Task>, handle: nat, t: Task)
    ensures t in Without(tasks, handle) <==> t in tasks && t.handle != handle
  {
    if tasks != [] {
      WithoutMembers(tasks[..|tasks| - 1], handle, t);
      assert tasks == tasks[..|tasks| - 1] + [tasks[|tasks| - 1]];
    }
  }

  /** A callback performs its actions in order, up to the first that raises an exception: its microtasks
      join the queue in order, and each timer that it sets takes the next handle. */
  lemma {:induction false} PerformQueues(c: Config, actions: seq<Action>)
    ensures var (after, threw) := Perform(c, actions);
            var done := actions[..Performed(actions)];
            (threw <==> Performed(actions) < |actions|) && after.micro == c.micro + Queues(done) && after.nextHandle == c.nextHandle + Sets(done)
    decreases actions
  {
    if actions == [] || Raises(actions[0]) {
      NothingDone(c, Task(0, 0, 0.0, None));
    } else {
      hide Perform, Performed, Queues, Sets, Raises, First;
      var action, rest := actions[0], actions[1..][..Performed(actions[1..])];
      PerformedCons(actions);
      OneAction(c, actions);
      PerformQueues(First(c, action), actions[1..]);
      SetsCons(action, rest);
      FirstQueues(c, action);
      assert c.micro + (if action.QueueMicrotask? then [action.callback] else []) + Queues(rest) == c.micro + Queues([action] + rest);
    }
  }

  /** Afterwards the timers are those that there were and those that it set, but for the ones that it
      then cleared. */
  lemma {:induction false} PerformTimers(c: Config, actions: seq<Action>, t: Task)
    ensures var done := actions[..Performed(actions)];
            t in Perform(c, actions).0.tasks <==> (t in c.tasks && !Clears(done, t.handle)) || SetBy(done, c.now, c.nextHandle, t)
    decreases actions
  {
    if actions == [] || Raises(actions[0]) {
      NothingDone(c, t);
    } else {
      hide Perform, SetBy, SetsTimer, Clears, Performed, Queues, Sets, Raises, First;
      var action, rest := actions[0], actions[1..][..Performed(actions[1..])];
      PerformedCons(actions);
      OneAction(c, actions);
      PerformTimers(First(c, action), actions[1..], t);
      ClearsCons(action, rest, t.handle);
      SetByCons(action, rest, c.now, c.nextHandle, t);
      if action.ClearTimeout? {
        WithoutMembers(c.tasks, action.handle, t);
      }
      FirstTimers(c, action, t);
      FirstQueues(c, action);
    }
  }

  lemma NothingDone(c: Config, t: Task)
    ensures Queues([]) == [] && Sets([]) == 0 && !Clears([], t.handle) && !SetBy([], c.now, c.nextHandle, t)
    ensures c.micro + [] == c.micro
  {
  }

  lemma PerformedCons(actions: seq<Action>)
    requires actions != [] && !Raises(actions[0])
    ensures Performed(actions) == 1 + Performed(actions[1..])
    ensures actions[..Performed(actions)] == [actions[0]] + actions[1..][..Performed(actions[1..])]
  {
  }

  /** What one action that raises nothing does. */
  function First(c: Config, action: Action): Config {
    match action
    case SetTimeout(callback, delay) =>
      c.(tasks := c.tasks + [Task(c.nextHandle, callback, if delay > 0.0 then c.now + delay else c.now, None)], nextHandle := c.nextHandle + 1)
    case SetInterval(callback, interval) =>
      c.(tasks := c.tasks + [Task(c.nextHandle, callback, c.now + interval, Some(interval))], nextHandle := c.nextHandle + 1)
    case ClearTimeout(handle) => c.(tasks := Without(c.tasks, handle))
    case QueueMicrotask(callback) => c.(micro := c.micro + [callback])
    case Throw => c
  }

  lemma FirstTimers(c: Config, action: Action, t: Task)
    requires action.ClearTimeout? ==> (t in Without(c.tasks, action.handle) <==> t in c.tasks && t.handle != action.handle)
    ensures t in First(c, action).tasks <==> (t in c.tasks && action != ClearTimeout(t.handle)) || SetsTimer(action, c.now, c.nextHandle, t)
  {
  }

  lemma FirstQueues(c: Config, action: Action)
    ensures var mid := First(c, action);
            && mid.now == c.now && mid.micro == c.micro + (if action.QueueMicrotask? then [action.callback] else [])
            && mid.nextHandle == c.nextHandle + if action.SetTimeout? || action.SetInterval? then 1 else 0
  {
  }

  lemma OneAction(c: Config, actions: seq<Action>)
    requires actions != [] && !Raises(actions[0])
    ensures Perform(c, actions) == Perform(First(c, actions[0]), actions[1..])
  {
  }

  /** When the callback of a timer and its microtasks are done, the timer is gone, or, if it repeats, due
      one interval after it was; no other timer changes. */
  lemma {:induction false} RearmExactly(tasks: seq<Task>, handle: nat, t: Task)
    ensures t in Rearm(tasks, handle) <==>
            if t.handle != handle then t in tasks
            else t.interval.Some? && t.(due := t.due - t.interval.value) in tasks
  {
    if tasks != [] {
      var last := tasks[|tasks| - 1];
      RearmExactly(tasks[..|tasks| - 1], handle, t);
      assert tasks == tasks[..|tasks| - 1] + [last];
      if last.interval.Some? {
        assert last.(due := last.due + last.interval.value) == t <==> last == t.(due := t.due - last.interval.value) && t.interval == last.interval;
      }
    }
  }

  // ----- first in, first out -----

  /** The microtasks among what ran, in order. */
  function MicrotasksOf(log: seq<Entry>): seq<Callback> {
    if log == [] then []
    else
      var before, last := MicrotasksOf(log[..|log| - 1]), log[|log| - 1];
      if last.handle.None? then before + [last.callback] else before
  }

  /** The microtasks that what ran since the log had `from` entries has queued, in order. */
  function QueuedSince(program: Program, log: seq<Entry>, from: nat): seq<Callback>
    decreases |log|
  {
    if |log| <= from then []
    else
      var before, last := log[..|log| - 1], log[|log| - 1];
      var actions := program(last.callback, last.time, before);
      QueuedSince(program, before, from) + Queues(actions[..Performed(actions)])
  }

  /** Microtasks run first in, first out: at every moment of a step, those that ran since it began,
      followed by those that still wait, are those that waited when it began, followed by those queued
      since, all in the order in which they were queued. */
  lemma {:induction false} FirstInFirstOut(program: Program, c: Config, target: real, n: nat)
    ensures c.log <= Iterate(program, c, target, n).log
    ensures var now := Iterate(program, c, target, n);
            MicrotasksOf(now.log[|c.log|..]) + now.micro == c.micro + QueuedSince(program, now.log, |c.log|)
  {
    if n == 0 {
      assert c.log[|c.log|..] == [] && MicrotasksOf([]) == [] && QueuedSince(program, c.log, |c.log|) == [];
    } else {
      hide Next, Iterate, MicrotasksOf, QueuedSince;
      FirstInFirstOut(program, c, target, n - 1);
      var was, now := Iterate(program, c, target, n - 1), Iterate(program, c, target, n);
      OneMoreMove(program, c, target, n - 1);
      var joins := MicrotaskMove(program, was, target, |c.log|);
      JoinsLast(c.micro, QueuedSince(program, was.log, |c.log|), joins);
    }
  }

  lemma JoinsLast<E>(a: seq<E>, b: seq<E>, c: seq<E>)
    ensures a + b + c == a + (b + c)
  {
  }

  lemma LogOneMore(program: Program, log: seq<Entry>, entry: Entry, from: nat)
    requires from <= |log|
    ensures var actions := program(entry.callback, entry.time, log);
            QueuedSince(program, log + [entry], from) == QueuedSince(program, log, from) + Queues(actions[..Performed(actions)])
    ensures MicrotasksOf((log + [entry])[from..]) == MicrotasksOf(log[from..]) + if entry.handle.None? then [entry.callback] else []
  {
    assert (log + [entry])[..|log|] == log;
    assert (log + [entry])[from..] == log[from..] + [entry];
    assert (log[from..] + [entry])[..|log[from..]|] == log[from..];
  }

  /** One callback more: it leaves the queue if it is a microtask, and its own microtasks join. */
  lemma CallMoves(program: Program, c: Config, handle: Option<nat>, callback: Callback, from: nat, queue: seq<Callback>) returns (joins: seq<Callback>)
    requires from <= |c.log|
    requires queue == (if handle.None? then [callback] else []) + c.micro
    ensures var after := Call(program, c, handle, callback).0;
            && c.log <= after.log && QueuedSince(program, after.log, from) == QueuedSince(program, c.log, from) + joins
            && MicrotasksOf(after.log[from..]) + after.micro == MicrotasksOf(c.log[from..]) + queue + joins
  {
    hide Perform, MicrotasksOf, QueuedSince, Queues, Performed, Sets;
    var entry := Entry(c.now, handle, callback);
    var actions := program(callback, c.now, c.log);
    joins := Queues(actions[..Performed(actions)]);
    PerformQueues(c.(log := c.log + [entry]), actions);
    LogOneMore(program, c.log, entry, from);
    Joined(MicrotasksOf(c.log[from..]), if handle.None? then [callback] else [], c.micro, joins);
  }

  lemma Joined<E>(a: seq<E>, b: seq<E>, c: seq<E>, d: seq<E>)
    ensures (a + b) + (c + d) == a + (b + c) + d
  {
  }

  lemma MicrotaskMove(program: Program, c: Config, target: real, from: nat) returns (joins: seq<Callback>)
    requires from <= |c.log|
    ensures var next := Next(program, c, target);
            && c.log <= next.log && QueuedSince(program, next.log, from) == QueuedSince(program, c.log, from) + joins
            && MicrotasksOf(next.log[from..]) + next.micro == MicrotasksOf(c.log[from..]) + c.micro + joins
  {
    hide Call, MicrotasksOf, QueuedSince;
    joins := [];
    match c.mode {
      case Picking =>
        var next := NextDue(c.tasks, target);
        if next.Some? {
          joins := CallMoves(program, c.(now := next.value.due), Some(next.value.handle), next.value.callback, from, c.micro);
        }
      case Flushing(_) =>
        if c.micro != [] {
          joins := CallMoves(program, c.(micro := c.micro[1..]), None, c.micro[0], from, c.micro);
        }
      case Settling =>
        if c.micro != [] {
          joins := CallMoves(program, c.(micro := c.micro[1..]), None, c.micro[0], from, c.micro);
        }
      case Finished(_) =>
    }
  }

  // ----- what ran is never forgotten -----

  lemma LogGrowsOnce(program: Program, c: Config, target: real)
    ensures c.log <= Next(program, c, target).log
  {
    hide Perform;
  }

  lemma {:induction false} LogGrows(program: Program, c: Config, target: real, m: nat, n: nat)
    requires m <= n
    ensures Iterate(program, c, target, m).log <= Iterate(program, c, target, n).log
  {
    hide Next;
    if m < n {
      LogGrows(program, c, target, m, n - 1);
      LogGrowsOnce(program, Iterate(program, c, target, n - 1), target);
    }
  }

  /** The next callback to run after the timers due by `low` are drained runs at `low` if the step
      stops there with a microtask left, and later if the step goes on. */
  lemma NextRuns(program: Program, d: Config, low: real, high: real)
    requires d.mode.Picking? && NextDue(d.tasks, low).None? && d.micro != [] && low < high
    ensures var stop := Next(program, Next(program, d, low), low).log;
            |stop| > |d.log| && stop[|d.log|].time == low
    ensures !Next(program, d, low).mode.Finished?
    ensures !Next(program, d, high).mode.Finished?
    ensures var on := Next(program, Next(program, d, high), high).log;
            |on| > |d.log| && on[|d.log|].time > low
  {
    NextDueMeaning(d.tasks, low);
    NextDueMeaning(d.tasks, high);
    LogGrowsOnce(program, Next(program, d, high), high);
    hide Perform;
  }

  /** A run that ends made at least `n` moves if it was not finished before them. */
  lemma RanFrom(program: Program, c: Config, target: real, n: nat, total: nat, end: Config)
    requires EndsAt(program, c, target, total, end) && !Iterate(program, c, target, n + 1).mode.Finished?
    ensures Iterate(program, c, target, n + 2).log <= end.log
  {
    hide Next;
    if total <= n + 1 {
      StaysFinished(program, c, target, total, n + 1);
    }
    LogGrows(program, c, target, n + 2, total);
  }

  /** Exactly when stepping in two parts is stepping at once: no microtask is left when the timers
      of the first part are drained. */
  lemma StepsComposeExactly(program: Program, c: Config, low: real, high: real, drained: nat,
                            m: nat, mid: Config, n: nat, end: Config, k: nat, whole: Config)
    requires c.mode.Picking? && low < high && Drained(program, c, low, drained)
    requires EndsAt(program, c, low, m, mid) && EndsAt(program, Again(mid), high, n, end) && EndsAt(program, c, high, k, whole)
    ensures end == whole <==> Iterate(program, c, low, drained).micro == []
  {
    hide Next, Perform, NextDue;
    var d := Iterate(program, c, low, drained);
    if d.micro == [] {
      StepsCompose(program, c, low, high, drained, m, mid, n, end);
      OneEnd(program, c, high, drained + n, k, end, whole);
    } else {
      NextRuns(program, d, low, high);
      SameMoves(program, c, low, high, drained);
      TwoMoves(program, c, low, drained);
      TwoMoves(program, c, high, drained);
      RanFrom(program, c, low, drained, m, mid);
      RanFrom(program, c, high, drained, k, whole);
      LogGrows(program, Again(mid), high, 0, n);
      var stop, on := Iterate(program, c, low, drained + 2).log, Iterate(program, c, high, drained + 2).log;
      assert end.log[|d.log|] == stop[|d.log|];
      assert whole.log[|d.log|] == on[|d.log|];
    }
  }

  /** Where no timer is due in the first part, the two agree exactly when no microtask is queued. */
  lemma IdleStepsComposeExactly(program: Program, c: Config, low: real, high: real,
                                m: nat, mid: Config, n: nat, end: Config, k: nat, whole: Config)
    requires c.mode.Picking? && low < high && NextDue(c.tasks, low).None?
    requires EndsAt(program, c, low, m, mid) && EndsAt(program, Again(mid), high, n, end) && EndsAt(program, c, high, k, whole)
    ensures end == whole <==> c.micro == []
  {
    NoMoves(program, c, low);
    hide Iterate, Next, NextDue;
    StepsComposeExactly(program, c, low, high, 0, m, mid, n, end, k, whole);
  }

  /** Stepping again to the time that was reached runs nothing exactly when the first step left no
      microtask, as one that throws can, and no timer that is due. */
  lemma StepAgainExactly(program: Program, c: Config, target: real, m: nat, mid: Config, n: nat, end: Config)
    requires EndsAt(program, c, target, m, mid) && EndsAt(program, Again(mid), target, n, end)
    ensures end.log == mid.log <==> mid.micro == [] && NextDue(mid.tasks, target).None?
  {
    var d := Again(mid);
    NoMoves(program, d, target);
    if mid.micro == [] && NextDue(mid.tasks, target).None? {
      hide Iterate, Next, NextDue;
      EndsQuietly(program, d, target, 0);
      OneEnd(program, d, target, n, 2, end, d.(now := target, mode := Finished(false)));
    } else {
      SomethingRuns(program, d, target);
      OneMoreMove(program, d, target, 0);
      OneMoreMove(program, d, target, 1);
      hide Iterate, Next, NextDue;
      RanFrom(program, d, target, 0, n, end);
    }
  }

  lemma SomethingRuns(program: Program, d: Config, target: real)
    requires d.mode.Picking? && (d.micro != [] || NextDue(d.tasks, target).Some?)
    ensures !Next(program, d, target).mode.Finished?
    ensures |Next(program, Next(program, d, target), target).log| > |d.log|
  {
    LogGrowsOnce(program, Next(program, d, target), target);
    hide Perform;
  }

  /** A callback that queues a microtask and then throws leaves it behind. */
  function QueuesThenThrows(callback: Callback, time: real, log: seq<Entry>): seq<Action> {
    if callback == 1 then [QueueMicrotask(2), Throw] else []
  }

  lemma ThrowMoves(target: real)
    requires target >= 1.0
    ensures var c := Config(0.0, [Task(0, 1, 1.0, None)], 1, [], [], Picking);
            var left := Config(1.0, [], 1, [2], [Entry(1.0, Some(0), 1)], Picking);
            && Drained(QueuesThenThrows, c, target, 1) && Iterate(QueuesThenThrows, c, target, 1) == left
            && EndsAt(QueuesThenThrows, c, target, 4, Config(target, [], 1, [], left.log + [Entry(target, None, 2)], Finished(false)))
  {
    var c := Config(0.0, [Task(0, 1, 1.0, None)], 1, [], [], Picking);
    var left := Config(1.0, [], 1, [2], [Entry(1.0, Some(0), 1)], Picking);
    var last := Config(target, [], 1, [], left.log + [Entry(target, None, 2)], Settling);
    assert NextDue(c.tasks, target) == Some(c.tasks[0]) by {
      assert c.tasks[..0] == [];
    }
    var ran := Config(1.0, c.tasks, 1, [], left.log, Picking);
    assert Perform(ran, [QueueMicrotask(2), Throw]) == (ran.(micro := [2]), true) by {
      assert [QueueMicrotask(2), Throw][1..] == [Throw];
      assert Perform(ran.(micro := [2]), [Throw]) == (ran.(micro := [2]), true);
      assert ran.micro + [2] == [2];
    }
    assert Rearm(c.tasks, 0) == [] by {
      assert c.tasks[..0] == [];
    }
    NoMoves(QueuesThenThrows, c, target);
    assert Next(QueuesThenThrows, c, target) == left;
    assert Next(QueuesThenThrows, left, target) == left.(now := target, mode := Settling);
    assert Next(QueuesThenThrows, left.(now := target, mode := Settling), target) == last;
    assert Next(QueuesThenThrows, last, target) == last.(mode := Finished(false));
    hide Next, Iterate;
    OneMoreMove(QueuesThenThrows, c, target, 0);
    OneMoreMove(QueuesThenThrows, c, target, 1);
    OneMoreMove(QueuesThenThrows, c, target, 2);
    OneMoreMove(QueuesThenThrows, c, target, 3);
  }

  /** A step to 1 and then to 2 runs that microtask at time 1; a single step to 2 runs it at time 2. */
  lemma TwoStepsDifferExample()
    ensures var c := Config(0.0, [Task(0, 1, 1.0, None)], 1, [], [], Picking);
            var mid := Iterate(QueuesThenThrows, c, 1.0, 4);
            var end, whole := Iterate(QueuesThenThrows, Again(mid), 2.0, 2), Iterate(QueuesThenThrows, c, 2.0, 4);
            && EndsAt(QueuesThenThrows, c, 1.0, 4, mid) && EndsAt(QueuesThenThrows, Again(mid), 2.0, 2, end)
            && EndsAt(QueuesThenThrows, c, 2.0, 4, whole)
            && end.log == [Entry(1.0, Some(0), 1), Entry(1.0, None, 2)]
            && whole.log == [Entry(1.0, Some(0), 1), Entry(2.0, None, 2)]
  {
    ThrowMoves(1.0);
    ThrowMoves(2.0);
    var c := Config(0.0, [Task(0, 1, 1.0, None)], 1, [], [], Picking);
    var mid := Iterate(QueuesThenThrows, c, 1.0, 4);
    NoMoves(QueuesThenThrows, Again(mid), 2.0);
    OneMoreMove(QueuesThenThrows, Again(mid), 2.0, 0);
    OneMoreMove(QueuesThenThrows, Again(mid), 2.0, 1);
    hide Iterate;
    assert Next(QueuesThenThrows, Again(mid), 2.0) == mid.(now := 2.0, mode := Settling);
  }

  // ----- callbacks that do not throw -----

  predicate Fails(a: Action) {
    a.Throw? || (a.SetInterval? && a.interval <= 0.0)
  }

  ghost predicate NeverThrows(program: Program) {
    forall callback: Callback, time: real, log: seq<Entry>, i ::
      0 <= i < |program(callback, time, log)| ==> !Fails(program(callback, time, log)[i])
  }

  lemma {:induction false} PerformsAll(c: Config, actions: seq<Action>)
    requires forall i :: 0 <= i < |actions| ==> !Fails(actions[i])
    ensures !Perform(c, actions).1
    decreases actions
  {
    if actions != [] {
      var rest := actions[1..];
      match actions[0] {
        case SetTimeout(callback, delay) => PerformsAll(AddTask(c, callback, c.now + AtLeastZero(delay), None), rest);
        case SetInterval(callback, interval) => PerformsAll(AddTask(c, callback, c.now + interval, Some(interval)), rest);
        case ClearTimeout(handle) => PerformsAll(c.(tasks := Without(c.tasks, handle)), rest);
        case QueueMicrotask(callback) => PerformsAll(c.(micro := c.micro + [callback]), rest);
        case Throw =>
      }
    }
  }

  predicate NothingLeft(c: Config) {
    c.mode.Flushing? || c.micro == []
  }

  lemma FlushesAll(program: Program, c: Config, target: real)
    requires NeverThrows(program) && Busy(c, target) && NothingLeft(c)
    ensures NothingLeft(Next(program, c, target))
  {
    hide Perform;
    if c.mode.Picking? {
      var task := NextDue(c.tasks, target).value;
      var c' := c.(now := task.due);
      PerformsAll(c'.(log := c'.log + [Entry(c'.now, Some(task.handle), task.callback)]), program(task.callback, c'.now, c'.log));
    } else if c.micro != [] {
      var c' := c.(micro := c.micro[1..]);
      PerformsAll(c'.(log := c'.log + [Entry(c'.now, None, c.micro[0])]), program(c.micro[0], c'.now, c'.log));
    }
  }

  lemma {:induction false} NoMicrotaskLeft(program: Program, c: Config, target: real, n: nat)
    requires NeverThrows(program) && c.mode.Picking? && c.micro == []
    requires forall k :: 0 <= k < n ==> Busy(Iterate(program, c, target, k), target)
    ensures NothingLeft(Iterate(program, c, target, n))
  {
    hide Next, NeverThrows;
    if n > 0 {
      NoMicrotaskLeft(program, c, target, n - 1);
      FlushesAll(program, Iterate(program, c, target, n - 1), target);
    }
  }

  /** On a clock with no microtask queued, with callbacks that never throw, stepping in two parts
      is stepping at once, and nothing due by the target is left. */
  lemma CleanStepsCompose(program: Program, c: Config, low: real, high: real, m: nat, mid: Config, n: nat, end: Config)
    requires NeverThrows(program) && c.mode.Picking? && c.micro == [] && low <= high
    requires EndsAt(program, c, low, m, mid) && EndsAt(program, Again(mid), high, n, end)
    ensures exists k :: EndsAt(program, c, high, k, end)
    ensures mid.now == low && mid.micro == [] && forall t :: t in mid.tasks ==> t.due > low
  {
    hide Next, NeverThrows;
    var drained := DrainsFirst(program, c, low, m);
    NoMicrotaskLeft(program, c, low, drained);
    StepsCompose(program, c, low, high, drained, m, mid, n, end);
    EndsQuietly(program, c, low, drained);
    OneEnd(program, c, low, m, drained + 2, mid, Iterate(program, c, low, drained).(now := low, mode := Finished(false)));
    NextDueMeaning(mid.tasks, low);
  }

  // ----- the order of callbacks -----

  predicate Later(t: Task, time: real, handle: nat) {
    t.due > time || (t.due == time && t.handle > handle)
  }

  function LastTimer(log: seq<Entry>): Option<Entry> {
    if log == [] then None
    else if log[|log| - 1].handle.Some? then Some(log[|log| - 1])
    else LastTimer(log[..|log| - 1])
  }

  /** Callbacks ran at times that never went back, and timers by due time, then by handle. */
  predicate LogOrdered(log: seq<Entry>, now: real) {
    && (forall i :: 0 <= i < |log| ==> log[i].time <= now)
    && (forall i, j :: 0 <= i < j < |log| ==> log[i].time <= log[j].time)
    && (forall i, j :: 0 <= i < j < |log| && log[i].handle.Some? && log[j].handle.Some? ==>
                         log[i].time < log[j].time || log[i].handle.value < log[j].handle.value)
  }

  predicate TaskOk(t: Task, now: real, nextHandle: nat) {
    t.due >= now && t.handle < nextHandle && (t.interval.Some? ==> t.interval.value > 0.0)
  }

  /** Between callbacks; `firing` is the timer whose callback is being served. */
  predicate InOrder(c: Config, firing: Option<nat>) {
    var last := LastTimer(c.log);
    && LogOrdered(c.log, c.now)
    && DistinctHandles(c.tasks)
    && (forall t :: t in c.tasks ==> TaskOk(t, c.now, c.nextHandle))
    && (last.Some? ==>
          && last.value.handle.Some? && last.value.handle.value < c.nextHandle && last.value.time <= c.now
          && forall t :: t in c.tasks && firing != Some(t.handle) ==> Later(t, last.value.time, last.value.handle.value))
    && (firing.Some? ==> last.Some? && last.value.handle == firing && last.value.time == c.now
                         && forall t :: t in c.tasks && t.handle == firing.value ==> t.due == c.now)
  }

  predicate IsLastTimer(log: seq<Entry>, k: nat) {
    k < |log| && LastTimer(log) == Some(log[k]) && forall i :: k < i < |log| ==> log[i].handle.None?
  }

  lemma {:induction false} LastTimerIs(log: seq<Entry>)
    ensures LastTimer(log).Some? ==> LastTimer(log).value.handle.Some? && exists k: nat :: IsLastTimer(log, k)
    ensures LastTimer(log).None? ==> forall i :: 0 <= i < |log| ==> log[i].handle.None?
  {
    if log != [] {
      var init, last := log[..|log| - 1], log[|log| - 1];
      if last.handle.Some? {
        assert IsLastTimer(log, |log| - 1);
      } else {
        LastTimerIs(init);
        if LastTimer(log).Some? {
          var k: nat :| IsLastTimer(init, k);
          assert forall i :: k < i < |init| ==> log[i] == init[i];
          assert log[k] == init[k];
          assert IsLastTimer(log, k);
        }
      }
    }
  }

  lemma LogMicrotask(log: seq<Entry>, now: real, callback: Callback)
    requires LogOrdered(log, now)
    ensures LogOrdered(log + [Entry(now, None, callback)], now) && LastTimer(log + [Entry(now, None, callback)]) == LastTimer(log)
  {
    var e := Entry(now, None, callback);
    assert (log + [e])[..|log|] == log;
  }

  /** A timer that is later than the last one extends the order. */
  lemma LogTimer(log: seq<Entry>, was: real, now: real, handle: nat, callback: Callback)
    requires LogOrdered(log, was) && was <= now
    requires LastTimer(log).Some? ==>
               var last := LastTimer(log).value;
               last.handle.Some? && (last.time < now || (last.time == now && last.handle.value < handle))
    ensures LogOrdered(log + [Entry(now, Some(handle), callback)], now)
    ensures LastTimer(log + [Entry(now, Some(handle), callback)]) == Some(Entry(now, Some(handle), callback))
  {
    var e := Entry(now, Some(handle), callback);
    var longer := log + [e];
    assert longer[..|log|] == log;
    LastTimerIs(log);
    forall i | 0 <= i < |log| && log[i].handle.Some?
      ensures log[i].time < now || log[i].handle.value < handle
    {
      var k: nat :| IsLastTimer(log, k);
      assert i <= k;
    }
  }

  lemma {:induction false} WithoutFacts(tasks: seq<Task>, handle: nat)
    ensures forall t :: t in Without(tasks, handle) <==> t in tasks && t.handle != handle
    ensures DistinctHandles(tasks) ==> DistinctHandles(Without(tasks, handle))
  {
    if tasks != [] {
      var init, last := tasks[..|tasks| - 1], tasks[|tasks| - 1];
      WithoutFacts(init, handle);
      assert tasks == init + [last];
      if DistinctHandles(tasks) && last.handle != handle {
        NewHandle(init, last);
        HandlesAppend(Without(init, handle), last);
      }
    }
  }

  lemma NewHandle(init: seq<Task>, last: Task)
    requires DistinctHandles(init + [last])
    ensures DistinctHandles(init) && forall t :: t in init ==> t.handle != last.handle
  {
    var all := init + [last];
    assert all[|init|] == last;
    assert forall i :: 0 <= i < |init| ==> all[i] == init[i];
    forall t | t in init
      ensures t.handle != last.handle
    {
      var i :| 0 <= i < |init| && init[i] == t;
      assert all[i].handle != all[|init|].handle;
    }
  }

  lemma HandlesAppend(tasks: seq<Task>, t: Task)
    requires DistinctHandles(tasks) && forall u :: u in tasks ==> u.handle != t.handle
    ensures DistinctHandles(tasks + [t])
  {
  }

  /** What becomes of a timer whose callback has run. */
  predicate Rearmed(tasks: seq<Task>, handle: nat, t: Task) {
    if t.handle != handle then t in tasks
    else t.interval.Some? && t.(due := t.due - t.interval.value) in tasks
  }

  lemma {:induction false} RearmFacts(tasks: seq<Task>, handle: nat)
    ensures forall t :: t in Rearm(tasks, handle) ==> Rearmed(tasks, handle, t)
    ensures DistinctHandles(tasks) ==> DistinctHandles(Rearm(tasks, handle))
  {
    if tasks != [] {
      var init, last := tasks[..|tasks| - 1], tasks[|tasks| - 1];
      RearmFacts(init, handle);
      forall t | t in Rearm(tasks, handle)
        ensures Rearmed(tasks, handle, t)
      {
        RearmedOne(init, last, handle, t);
      }
      if DistinctHandles(tasks) {
        DistinctRearm(init, last, handle);
      }
    }
  }

  lemma RearmedOne(init: seq<Task>, last: Task, handle: nat, t: Task)
    requires Rearmed(init, handle, t) || (last.handle != handle && t == last) ||
             (last.handle == handle && last.interval.Some? && t == last.(due := last.due + last.interval.value))
    ensures Rearmed(init + [last], handle, t)
  {
  }

  lemma DistinctRearm(init: seq<Task>, last: Task, handle: nat)
    requires DistinctHandles(init + [last]) && DistinctHandles(Rearm(init, handle))
    requires forall t :: t in Rearm(init, handle) ==> Rearmed(init, handle, t)
    ensures last.handle != handle ==> DistinctHandles(Rearm(init, handle) + [last])
    ensures last.handle == handle && last.interval.Some? ==>
              DistinctHandles(Rearm(init, handle) + [last.(due := last.due + last.interval.value)])
  {
    NewHandle(init, last);
    hide DistinctHandles;
    forall t | t in Rearm(init, handle)
      ensures t.handle != last.handle
    {
      assert Rearmed(init, handle, t);
    }
    HandlesAppend(Rearm(init, handle), last);
    if last.interval.Some? {
      HandlesAppend(Rearm(init, handle), last.(due := last.due + last.interval.value));
    }
  }

  lemma AddKeepsOrder(c: Config, callback: Callback, due: real, interval: Option<real>, firing: Option<nat>)
    requires InOrder(c, firing) && due >= c.now && (interval.Some? ==> interval.value > 0.0)
    ensures InOrder(AddTask(c, callback, due, interval), firing)
  {
    var t := Task(c.nextHandle, callback, due, interval);
    HandlesAppend(c.tasks, t);
    hide LogOrdered, DistinctHandles;
  }

  lemma ClearKeepsOrder(c: Config, handle: nat, firing: Option<nat>)
    requires InOrder(c, firing)
    ensures InOrder(c.(tasks := Without(c.tasks, handle)), firing)
  {
    WithoutFacts(c.tasks, handle);
    hide LogOrdered, DistinctHandles, Without;
  }

  lemma {:induction false} PerformKeepsOrder(c: Config, actions: seq<Action>, firing: Option<nat>)
    requires InOrder(c, firing)
    ensures InOrder(Perform(c, actions).0, firing)
    decreases actions
  {
    hide InOrder;
    if actions != [] {
      var rest := actions[1..];
      match actions[0] {
        case SetTimeout(callback, delay) =>
          AddKeepsOrder(c, callback, c.now + AtLeastZero(delay), None, firing);
          PerformKeepsOrder(AddTask(c, callback, c.now + AtLeastZero(delay), None), rest, firing);
        case SetInterval(callback, interval) =>
          if interval > 0.0 {
            AddKeepsOrder(c, callback, c.now + interval, Some(interval), firing);
            PerformKeepsOrder(AddTask(c, callback, c.now + interval, Some(interval)), rest, firing);
          }
        case ClearTimeout(handle) =>
          ClearKeepsOrder(c, handle, firing);
          PerformKeepsOrder(c.(tasks := Without(c.tasks, handle)), rest, firing);
        case QueueMicrotask(callback) =>
          QueueKeepsOrder(c, callback, firing);
          PerformKeepsOrder(c.(micro := c.micro + [callback]), rest, firing);
        case Throw =>
      }
    }
  }

  lemma QueueKeepsOrder(c: Config, callback: Callback, firing: Option<nat>)
    requires InOrder(c, firing)
    ensures InOrder(c.(micro := c.micro + [callback]), firing)
  {
  }

  lemma MicrotaskKeepsOrder(program: Program, c: Config, firing: Option<nat>)
    requires InOrder(c, firing) && c.micro != []
    ensures InOrder(Call(program, c.(micro := c.micro[1..]), None, c.micro[0]).0, firing)
  {
    LogMicrotask(c.log, c.now, c.micro[0]);
    hide LogOrdered, DistinctHandles, LastTimer, Perform;
    var c' := c.(micro := c.micro[1..], log := c.log + [Entry(c.now, None, c.micro[0])]);
    PerformKeepsOrder(c', program(c.micro[0], c.now, c.log), firing);
  }

  lemma FinishKeepsOrder(c: Config, handle: nat)
    requires InOrder(c, Some(handle))
    ensures InOrder(Finish(c, handle), None)
  {
    RearmFacts(c.tasks, handle);
    hide LogOrdered, DistinctHandles, Rearm, LastTimer;
    forall t | t in Rearm(c.tasks, handle)
      ensures TaskOk(t, c.now, c.nextHandle) && Later(t, LastTimer(c.log).value.time, LastTimer(c.log).value.handle.value)
    {
      assert Rearmed(c.tasks, handle, t);
      if t.handle == handle {
        var was := t.(due := t.due - t.interval.value);
        assert TaskOk(was, c.now, c.nextHandle) && was.due == c.now;
      }
    }
  }

  lemma PickKeepsOrder(program: Program, c: Config, target: real)
    requires InOrder(c, None) && NextDue(c.tasks, target).Some?
    ensures var task := NextDue(c.tasks, target).value;
            InOrder(Call(program, c.(now := task.due), Some(task.handle), task.callback).0, Some(task.handle))
  {
    hide InOrder, Perform, NextDue;
    NextDueMeaning(c.tasks, target);
    var task := NextDue(c.tasks, target).value;
    FiresInOrder(c, task);
    PerformKeepsOrder(c.(now := task.due, log := c.log + [Entry(task.due, Some(task.handle), task.callback)]),
                      program(task.callback, task.due, c.log), Some(task.handle));
  }

  lemma FiresInOrder(c: Config, task: Task)
    requires InOrder(c, None) && task in c.tasks && forall t :: t in c.tasks ==> !Sooner(t, task)
    ensures InOrder(c.(now := task.due, log := c.log + [Entry(task.due, Some(task.handle), task.callback)]), Some(task.handle))
  {
    hide LogOrdered, DistinctHandles, LastTimer;
    LogTimer(c.log, c.now, task.due, task.handle, task.callback);
    OneHandle(c.tasks, task);
  }

  lemma OneHandle(tasks: seq<Task>, task: Task)
    requires DistinctHandles(tasks) && task in tasks
    ensures forall t :: t in tasks && t.handle == task.handle ==> t == task
  {
  }

  function FiringOf(c: Config): Option<nat> {
    if c.mode.Flushing? then Some(c.mode.handle) else None
  }

  /** One move keeps the order and never turns the clock back. */
  lemma NextKeepsOrder(program: Program, c: Config, target: real)
    requires InOrder(c, FiringOf(c)) && c.now <= target
    ensures var next := Next(program, c, target);
            InOrder(next, FiringOf(next)) && c.now <= next.now <= target
  {
    hide Perform, Rearm, LastTimer, LogOrdered, DistinctHandles, NextDue;
    match c.mode {
      case Picking =>
        NextDueMeaning(c.tasks, target);
        if NextDue(c.tasks, target).Some? {
          var task := NextDue(c.tasks, target).value;
          PickKeepsOrder(program, c, target);
          var (after, threw) := Call(program, c.(now := task.due), Some(task.handle), task.callback);
          if threw {
            FinishKeepsOrder(after, task.handle);
          }
        } else {
          IdleKeepsOrder(c, target);
        }
      case Flushing(handle) =>
        if c.micro == [] {
          FinishKeepsOrder(c, handle);
        } else {
          MicrotaskKeepsOrder(program, c, Some(handle));
          var (after, threw) := Call(program, c.(micro := c.micro[1..]), None, c.micro[0]);
          if threw {
            FinishKeepsOrder(after, handle);
          }
        }
      case Settling =>
        if c.micro != [] {
          MicrotaskKeepsOrder(program, c, None);
        }
      case Finished(_) =>
    }
  }

  lemma IdleKeepsOrder(c: Config, target: real)
    requires InOrder(c, None) && c.now <= target && forall t :: t in c.tasks ==> t.due > target
    ensures InOrder(c.(now := target, mode := Settling), None)
  {
    hide DistinctHandles, LastTimer;
  }

  /** In every state of a step, and after it, callbacks have run in the order of their due times,
      then of their handles, and time has never gone back. */
  lemma {:induction false} StepInOrder(program: Program, c: Config, target: real, n: nat)
    requires InOrder(c, FiringOf(c)) && c.now <= target
    ensures var after := Iterate(program, c, target, n);
            InOrder(after, FiringOf(after)) && c.now <= after.now <= target
  {
    hide Next, InOrder;
    if n > 0 {
      StepInOrder(program, c, target, n - 1);
      NextKeepsOrder(program, Iterate(program, c, target, n - 1), target);
    }
  }

  // ----- no timer is missed -----

  /** No callback clears the timer. */
  ghost predicate NeverClears(program: Program, handle: nat) {
    forall callback: Callback, time: real, log: seq<Entry> :: ClearTimeout(handle) !in program(callback, time, log)
  }

  /** The timer is still waiting, or it has run when it was due. */
  predicate WaitsOrRan(c: Config, t: Task) {
    (t in c.tasks && FiringOf(c) != Some(t.handle)) || Entry(t.due, Some(t.handle), t.callback) in c.log
  }

  lemma {:induction false} PerformKeepsTimer(c: Config, actions: seq<Action>, t: Task)
    requires t in c.tasks && ClearTimeout(t.handle) !in actions
    ensures t in Perform(c, actions).0.tasks
    decreases actions
  {
    if actions != [] {
      var rest := actions[1..];
      match actions[0] {
        case SetTimeout(callback, delay) => PerformKeepsTimer(AddTask(c, callback, c.now + AtLeastZero(delay), None), rest, t);
        case SetInterval(callback, interval) => PerformKeepsTimer(AddTask(c, callback, c.now + interval, Some(interval)), rest, t);
        case ClearTimeout(handle) =>
          WithoutFacts(c.tasks, handle);
          PerformKeepsTimer(c.(tasks := Without(c.tasks, handle)), rest, t);
        case QueueMicrotask(callback) => PerformKeepsTimer(c.(micro := c.micro + [callback]), rest, t);
        case Throw =>
      }
    }
  }

  lemma {:induction false} RearmKeepsOthers(tasks: seq<Task>, handle: nat, t: Task)
    requires t in tasks && t.handle != handle
    ensures t in Rearm(tasks, handle)
  {
    var init, last := tasks[..|tasks| - 1], tasks[|tasks| - 1];
    assert tasks == init + [last];
    if t in init {
      RearmKeepsOthers(init, handle, t);
    }
  }

  lemma CallKeepsTimer(program: Program, c: Config, handle: Option<nat>, callback: Callback, t: Task)
    requires NeverClears(program, t.handle)
    ensures t in c.tasks ==> t in Call(program, c, handle, callback).0.tasks
    ensures Call(program, c, handle, callback).0.log == c.log + [Entry(c.now, handle, callback)]
  {
    if t in c.tasks {
      PerformKeepsTimer(c.(log := c.log + [Entry(c.now, handle, callback)]), program(callback, c.now, c.log), t);
    }
  }

  lemma NextKeepsTimer(program: Program, c: Config, target: real, t: Task)
    requires WaitsOrRan(c, t) && NeverClears(program, t.handle) && InOrder(c, FiringOf(c))
    ensures WaitsOrRan(Next(program, c, target), t)
  {
    LogGrowsOnce(program, c, target);
    if Entry(t.due, Some(t.handle), t.callback) !in c.log {
      if c.mode.Picking? && NextDue(c.tasks, target).Some? {
        var task := NextDue(c.tasks, target).value;
        NextDueMeaning(c.tasks, target);
        OneHandle(c.tasks, task);
        hide Call, InOrder, NextDue, Rearm, NeverClears, DistinctHandles;
        CallKeepsTimer(program, c.(now := task.due), Some(task.handle), task.callback, t);
        var (after, threw) := Call(program, c.(now := task.due), Some(task.handle), task.callback);
        if task.handle == t.handle {
          assert after.log[|c.log|] == Entry(t.due, Some(t.handle), t.callback);
        } else if threw {
          RearmKeepsOthers(after.tasks, task.handle, t);
        }
      } else {
        hide Call, InOrder, NextDue, Rearm, NeverClears;
        if c.mode.Flushing? && c.micro == [] {
          RearmKeepsOthers(c.tasks, c.mode.handle, t);
        } else if (c.mode.Flushing? || c.mode.Settling?) && c.micro != [] {
          CallKeepsTimer(program, c.(micro := c.micro[1..]), None, c.micro[0], t);
          CallKeepsMode(program, c.(micro := c.micro[1..]), None, c.micro[0]);
          var (after, threw) := Call(program, c.(micro := c.micro[1..]), None, c.micro[0]);
          if threw && c.mode.Flushing? {
            RearmKeepsOthers(after.tasks, c.mode.handle, t);
          }
        }
      }
    }
  }

  lemma {:induction false} KeepsTimer(program: Program, c: Config, target: real, t: Task, n: nat)
    requires InOrder(c, FiringOf(c)) && c.now <= target && WaitsOrRan(c, t) && NeverClears(program, t.handle)
    ensures WaitsOrRan(Iterate(program, c, target, n), t)
  {
    hide Next, InOrder, NeverClears, WaitsOrRan;
    if n > 0 {
      KeepsTimer(program, c, target, t, n - 1);
      StepInOrder(program, c, target, n - 1);
      NextKeepsTimer(program, Iterate(program, c, target, n - 1), target, t);
    }
  }

  /** A step that ends has run every timer due by its target that no callback cleared, at the very
      time that it was due. */
  lemma DueTimerRuns(program: Program, c: Config, target: real, n: nat, end: Config, t: Task)
    requires InOrder(c, None) && c.mode.Picking? && c.now <= target && EndsAt(program, c, target, n, end)
    requires t in c.tasks && t.due <= target && NeverClears(program, t.handle)
    ensures Entry(t.due, Some(t.handle), t.callback) in end.log
  {
    hide Next, InOrder, NeverClears, Iterate;
    var m := DrainsFirst(program, c, target, n);
    var d := Iterate(program, c, target, m);
    KeepsTimer(program, c, target, t, m);
    NextDueMeaning(d.tasks, target);
    LogGrows(program, c, target, m, n);
  }

  // ----- termination -----

  /** How often a timer will still fire by `target`. */
  function Firings(t: Task, target: real): nat
    requires t.interval.Some? ==> t.interval.value > 0.0
  {
    if t.due > target then 0
    else if t.interval.None? then 1
    else Elapsed(target - t.due, t.interval.value) + 1
  }

  function Elapsed(time: real, interval: real): nat
    requires time >= 0.0 && interval > 0.0
  {
    NonNegativeQuotient(time, interval);
    (time / interval).Floor
  }

  lemma NonNegativeQuotient(time: real, interval: real)
    requires time >= 0.0 && interval > 0.0
    ensures time / interval >= 0.0
  {
  }

  lemma QuotientOf(a: real, b: real, q: real)
    requires b > 0.0 && a == q * b
    ensures a / b == q
  {
  }

  lemma OneIntervalLess(time: real, interval: real)
    requires interval > 0.0 && time >= 0.0
    ensures time >= interval ==> Elapsed(time - interval, interval) + 1 == Elapsed(time, interval)
    ensures time < interval ==> Elapsed(time, interval) == 0
  {
    var q := time / interval;
    assert q * interval == time;
    assert (q - 1.0) * interval == time - interval;
    QuotientOf(time - interval, interval, q - 1.0);
    if time < interval {
      assert q < 1.0;
    }
  }

  predicate Positive(tasks: seq<Task>) {
    forall i :: 0 <= i < |tasks| && tasks[i].interval.Some? ==> tasks[i].interval.value > 0.0
  }

  function TotalFirings(tasks: seq<Task>, target: real): nat
    requires Positive(tasks)
  {
    if tasks == [] then 0
    else TotalFirings(tasks[..|tasks| - 1], target) + Firings(tasks[|tasks| - 1], target)
  }

  lemma {:induction false} RearmPositive(tasks: seq<Task>, handle: nat)
    requires Positive(tasks)
    ensures Positive(Rearm(tasks, handle))
  {
    if tasks != [] {
      RearmPositive(tasks[..|tasks| - 1], handle);
    }
  }

  lemma {:induction false} WithoutPositive(tasks: seq<Task>, handle: nat)
    requires Positive(tasks)
    ensures Positive(Without(tasks, handle))
  {
    if tasks != [] {
      WithoutPositive(tasks[..|tasks| - 1], handle);
    }
  }

  lemma TotalAppend(tasks: seq<Task>, t: Task, target: real)
    requires Positive(tasks) && (t.interval.Some? ==> t.interval.value > 0.0)
    ensures Positive(tasks + [t]) && TotalFirings(tasks + [t], target) == TotalFirings(tasks, target) + Firings(t, target)
  {
    assert (tasks + [t])[..|tasks + [t]| - 1] == tasks;
  }

  lemma RearmAppend(tasks: seq<Task>, t: Task, handle: nat)
    ensures Rearm(tasks + [t], handle) ==
            if t.handle != handle then Rearm(tasks, handle) + [t]
            else if t.interval.None? then Rearm(tasks, handle)
            else Rearm(tasks, handle) + [t.(due := t.due + t.interval.value)]
  {
    assert (tasks + [t])[..|tasks + [t]| - 1] == tasks;
  }

  /** The timer as it stands after its callback, when it stays. */
  function NextTime(t: Task): Task {
    if t.interval.Some? then t.(due := t.due + t.interval.value) else t
  }

  lemma FiringUsed(t: Task, target: real)
    requires t.interval.Some? && t.interval.value > 0.0
    ensures Firings(NextTime(t), target) == if t.due <= target then Firings(t, target) - 1 else 0
  {
    if t.due <= target {
      OneIntervalLess(target - t.due, t.interval.value);
      assert target - NextTime(t).due == (target - t.due) - t.interval.value;
    }
  }

  lemma PositiveInit(init: seq<Task>, last: Task)
    requires Positive(init + [last])
    ensures Positive(init) && (last.interval.Some? ==> last.interval.value > 0.0)
  {
    assert (init + [last])[|init|] == last;
    assert forall i :: 0 <= i < |init| ==> (init + [last])[i] == init[i];
  }

  predicate IsDue(tasks: seq<Task>, handle: nat, target: real) {
    exists i :: 0 <= i < |tasks| && tasks[i].handle == handle && tasks[i].due <= target
  }

  lemma IsDueAppend(tasks: seq<Task>, t: Task, handle: nat, target: real)
    ensures IsDue(tasks + [t], handle, target) ==> IsDue(tasks, handle, target) || (t.handle == handle && t.due <= target)
  {
  }

  /** Rearming a timer that is due uses up one of its firings. */
  lemma {:induction false} RearmUses(tasks: seq<Task>, handle: nat, target: real)
    requires Positive(tasks)
    ensures Positive(Rearm(tasks, handle))
    ensures TotalFirings(Rearm(tasks, handle), target) <= TotalFirings(tasks, target)
    ensures IsDue(tasks, handle, target) ==> TotalFirings(Rearm(tasks, handle), target) < TotalFirings(tasks, target)
  {
    if tasks == [] {
    } else {
      hide Rearm, TotalFirings, IsDue, Firings, Positive;
      var init, last := tasks[..|tasks| - 1], tasks[|tasks| - 1];
      assert tasks == init + [last];
      PositiveInit(init, last);
      RearmUses(init, handle, target);
      RearmUsesOne(init, last, handle, target);
    }
  }

  lemma RearmUsesOne(init: seq<Task>, last: Task, handle: nat, target: real)
    requires Positive(init + [last]) && Positive(init) && Positive(Rearm(init, handle))
    requires TotalFirings(Rearm(init, handle), target) <= TotalFirings(init, target)
    requires IsDue(init, handle, target) ==> TotalFirings(Rearm(init, handle), target) < TotalFirings(init, target)
    ensures Positive(Rearm(init + [last], handle))
    ensures TotalFirings(Rearm(init + [last], handle), target) <= TotalFirings(init + [last], target)
    ensures IsDue(init + [last], handle, target) ==>
              TotalFirings(Rearm(init + [last], handle), target) < TotalFirings(init + [last], target)
  {
    hide Rearm, TotalFirings, IsDue, Firings, Positive, Elapsed;
    PositiveInit(init, last);
    RearmAppend(init, last, handle);
    TotalAppend(init, last, target);
    IsDueAppend(init, last, handle, target);
    if last.handle != handle {
      TotalAppend(Rearm(init, handle), last, target);
    } else if last.interval.Some? {
      FiringUsed(last, target);
      TotalAppend(Rearm(init, handle), NextTime(last), target);
    }
    DueFires(last, target);
  }

  lemma DueFires(t: Task, target: real)
    requires t.interval.Some? ==> t.interval.value > 0.0
    ensures t.due <= target ==> Firings(t, target) > 0
  {
  }

  lemma WithoutAppend(tasks: seq<Task>, t: Task, handle: nat)
    ensures Without(tasks + [t], handle) == if t.handle == handle then Without(tasks, handle) else Without(tasks, handle) + [t]
  {
    assert (tasks + [t])[..|tasks + [t]| - 1] == tasks;
  }

  /** Clearing a timer takes firings away, whether or not another one is being served. */
  lemma {:induction false} ClearUses(tasks: seq<Task>, cleared: nat, handle: nat, target: real)
    requires Positive(tasks)
    ensures Positive(Without(tasks, cleared)) && Positive(Rearm(tasks, handle)) && Positive(Rearm(Without(tasks, cleared), handle))
    ensures TotalFirings(Without(tasks, cleared), target) <= TotalFirings(tasks, target)
    ensures TotalFirings(Rearm(Without(tasks, cleared), handle), target) <= TotalFirings(Rearm(tasks, handle), target)
  {
    WithoutPositive(tasks, cleared);
    RearmPositive(tasks, handle);
    RearmPositive(Without(tasks, cleared), handle);
    if tasks != [] {
      hide Rearm, TotalFirings, Without, Firings, Positive, Elapsed;
      var init, last := tasks[..|tasks| - 1], tasks[|tasks| - 1];
      assert tasks == init + [last];
      PositiveInit(init, last);
      ClearUses(init, cleared, handle, target);
      ClearUsesOne(init, last, cleared, handle, target);
    }
  }

  lemma ClearUsesOne(init: seq<Task>, last: Task, cleared: nat, handle: nat, target: real)
    requires Positive(init + [last]) && Positive(init)
    requires Positive(Without(init, cleared)) && Positive(Rearm(init, handle)) && Positive(Rearm(Without(init, cleared), handle))
    requires TotalFirings(Without(init, cleared), target) <= TotalFirings(init, target)
    requires TotalFirings(Rearm(Without(init, cleared), handle), target) <= TotalFirings(Rearm(init, handle), target)
    ensures Positive(Without(init + [last], cleared)) && Positive(Rearm(init + [last], handle))
            && Positive(Rearm(Without(init + [last], cleared), handle))
    ensures TotalFirings(Without(init + [last], cleared), target) <= TotalFirings(init + [last], target)
    ensures TotalFirings(Rearm(Without(init + [last], cleared), handle), target) <= TotalFirings(Rearm(init + [last], handle), target)
  {
    hide Rearm, TotalFirings, Without, Firings, Positive, Elapsed;
    PositiveInit(init, last);
    WithoutAppend(init, last, cleared);
    RearmAppend(init, last, handle);
    RearmAppend(Without(init, cleared), last, handle);
    TotalAppend(init, last, target);
    TotalAppend(Without(init, cleared), last, target);
    var next := if last.handle == handle then NextTime(last) else last;
    TotalAppend(Rearm(init, handle), next, target);
    TotalAppend(Rearm(Without(init, cleared), handle), next, target);
  }

  ghost predicate SchedulesNothing(program: Program) {
    forall callback: Callback, time: real, log: seq<Entry>, i ::
      0 <= i < |program(callback, time, log)| ==> program(callback, time, log)[i].ClearTimeout?
  }

  lemma {:induction false} ClearsUse(c: Config, actions: seq<Action>, handle: nat, target: real)
    requires Positive(c.tasks) && forall i :: 0 <= i < |actions| ==> actions[i].ClearTimeout?
    ensures var (after, threw) := Perform(c, actions);
            && !threw && after.micro == c.micro && Positive(after.tasks)
            && Positive(Rearm(c.tasks, handle)) && Positive(Rearm(after.tasks, handle))
            && TotalFirings(after.tasks, target) <= TotalFirings(c.tasks, target)
            && TotalFirings(Rearm(after.tasks, handle), target) <= TotalFirings(Rearm(c.tasks, handle), target)
    decreases actions
  {
    RearmPositive(c.tasks, handle);
    if actions != [] {
      ClearUses(c.tasks, actions[0].handle, handle, target);
      ClearsUse(c.(tasks := Without(c.tasks, actions[0].handle)), actions[1..], handle, target);
    }
  }

  /** An upper bound on the moves left, for callbacks that schedule nothing. */
  function MovesLeft(c: Config, target: real): nat
    requires Positive(c.tasks)
  {
    match c.mode
    case Picking => 3 * TotalFirings(c.tasks, target) + |c.micro| + 2
    case Flushing(handle) =>
      RearmPositive(c.tasks, handle);
      3 * TotalFirings(Rearm(c.tasks, handle), target) + |c.micro| + 4
    case Settling => |c.micro| + 1
    case Finished(_) => 0
  }

  /** Every move uses up the measure, so that a step always ends. */
  lemma MeasureDrops(program: Program, c: Config, target: real)
    requires SchedulesNothing(program) && Positive(c.tasks) && !c.mode.Finished?
    ensures Positive(Next(program, c, target).tasks)
    ensures MovesLeft(Next(program, c, target), target) < MovesLeft(c, target)
  {
    hide Perform, Without, Rearm;
    match c.mode {
      case Picking =>
        NextDueMeaning(c.tasks, target);
        if NextDue(c.tasks, target).Some? {
          var task := NextDue(c.tasks, target).value;
          assert IsDue(c.tasks, task.handle, target);
          RearmUses(c.tasks, task.handle, target);
          ClearsUse(c.(now := task.due, log := c.log + [Entry(task.due, Some(task.handle), task.callback)]),
                    program(task.callback, task.due, c.log), task.handle, target);
        }
      case Flushing(handle) =>
        RearmPositive(c.tasks, handle);
        if c.micro != [] {
          ClearsUse(c.(micro := c.micro[1..], log := c.log + [Entry(c.now, None, c.micro[0])]),
                    program(c.micro[0], c.now, c.log), handle, target);
        }
      case Settling =>
        if c.micro != [] {
          ClearsUse(c.(micro := c.micro[1..], log := c.log + [Entry(c.now, None, c.micro[0])]),
                    program(c.micro[0], c.now, c.log), 0, target);
        }
    }
  }

  /** With callbacks that schedule nothing, a step ends within the measure. */
  lemma {:induction false} StepEnds(program: Program, c: Config, target: real)
    requires SchedulesNothing(program) && Positive(c.tasks)
    ensures Iterate(program, c, target, MovesLeft(c, target)).mode.Finished?
    decreases MovesLeft(c, target)
  {
    hide Next, SchedulesNothing;
    if !c.mode.Finished? {
      MeasureDrops(program, c, target);
      var next := Next(program, c, target);
      StepEnds(program, next, target);
      assert Iterate(program, c, target, 0) == c;
      assert Iterate(program, c, target, 1) == next;
      IterateFrom(program, c, target, 1, MovesLeft(next, target));
      StaysFinished(program, c, target, 1 + MovesLeft(next, target), MovesLeft(c, target));
    }
  }

  // ----- the clock itself -----

  /** A paused clock. */
  class Clock {
    const program: Program
    var simulatedNowMs: real
    var tasks: seq<Task>
    var nextHandle: nat
    var microtasks: seq<Callback>
    var log: seq<Entry>

    constructor (program: Program, nowMs: real)
      ensures this.program == program && View(Picking) == Config(nowMs, [], 1, [], [], Picking)
    {
      this.program := program;
      simulatedNowMs, tasks, nextHandle, microtasks, log := nowMs, [], 1, [], [];
    }

    ghost function View(mode: Mode): Config
      reads this
    {
      Config(simulatedNowMs, tasks, nextHandle, microtasks, log, mode)
    }

    method SetTimeout(callback: Callback, delayMs: real) returns (handle: nat)
      modifies this`tasks, this`nextHandle
      ensures handle == old(nextHandle)
      ensures forall mode :: View(mode) == AddTask(old(View(mode)), callback, simulatedNowMs + AtLeastZero(delayMs), None)
    {
      handle := nextHandle;
      nextHandle := nextHandle + 1;
      tasks := tasks + [Task(handle, callback, simulatedNowMs + AtLeastZero(delayMs), None)];
    }

    method SetInterval(callback: Callback, intervalMs: real) returns (handle: Option<nat>)
      modifies this`tasks, this`nextHandle
      ensures handle == if intervalMs <= 0.0 then None else Some(old(nextHandle))
      ensures forall mode :: View(mode) == if intervalMs <= 0.0 then old(View(mode))
                                           else AddTask(old(View(mode)), callback, simulatedNowMs + intervalMs, Some(intervalMs))
    {
      if intervalMs <= 0.0 {
        return None;
      }
      handle := Some(nextHandle);
      nextHandle := nextHandle + 1;
      tasks := tasks + [Task(handle.value, callback, simulatedNowMs + intervalMs, Some(intervalMs))];
    }

    method ClearTimeout(handle: nat)
      modifies this`tasks
      ensures tasks == Without(old(tasks), handle)
    {
      var kept := [];
      for i := 0 to |tasks|
        invariant tasks == old(tasks) && kept == Without(tasks[..i], handle)
      {
        assert tasks[..i + 1][..i] == tasks[..i];
        if tasks[i].handle != handle {
          kept := kept + [tasks[i]];
        }
      }
      assert tasks[..|tasks|] == tasks;
      tasks := kept;
    }

    method NextDueTask(targetMs: real) returns (next: Option<Task>)
      ensures next == NextDue(tasks, targetMs)
    {
      next := None;
      for i := 0 to |tasks|
        invariant next == NextDue(tasks[..i], targetMs)
      {
        assert tasks[..i + 1][..i] == tasks[..i];
        var task := tasks[i];
        if task.due > targetMs {
          continue;
        }
        if next.None? || task.due < next.value.due || (task.due == next.value.due && task.handle < next.value.handle) {
          next := Some(task);
        }
      }
      assert tasks[..|tasks|] == tasks;
    }

    /** Runs a callback: its actions in order, up to an exception. */
    method RunCallback(handle: Option<nat>, callback: Callback) returns (threw: bool)
      modifies this`tasks, this`nextHandle, this`microtasks, this`log
      ensures forall mode :: (View(mode), threw) == Call(program, old(View(mode)), handle, callback)
    {
      var actions := program(callback, simulatedNowMs, log);
      log := log + [Entry(simulatedNowMs, handle, callback)];
      ghost var before := View(Picking);
      threw := false;
      var i := 0;
      while i < |actions| && !threw
        invariant i <= |actions| && simulatedNowMs == before.now && log == before.log
        invariant Perform(before, actions) == if threw then (View(Picking), true) else Perform(View(Picking), actions[i..])
      {
        match actions[i] {
          case SetTimeout(cb, delay) => var _ := SetTimeout(cb, delay);
          case SetInterval(cb, interval) =>
            var made := SetInterval(cb, interval);
            threw := made.None?;
          case ClearTimeout(h) => ClearTimeout(h);
          case QueueMicrotask(cb) => microtasks := microtasks + [cb];
          case Throw => threw := true;
        }
        i := i + 1;
      }
      forall mode
        ensures (View(mode), threw) == Call(program, old(View(mode)), handle, callback)
      {
        PerformAnyMode(before, actions, mode);
      }
    }

    method FinishTask(handle: nat)
      modifies this`tasks
      ensures tasks == Rearm(old(tasks), handle)
    {
      var kept := [];
      for i := 0 to |tasks|
        invariant tasks == old(tasks) && kept == Rearm(tasks[..i], handle)
      {
        assert tasks[..i + 1][..i] == tasks[..i];
        var task := tasks[i];
        if task.handle != handle {
          kept := kept + [task];
        } else if task.interval.Some? {
          kept := kept + [task.(due := task.due + task.interval.value)];
        }
      }
      assert tasks[..|tasks|] == tasks;
      tasks := kept;
    }

    /** Runs microtasks until none is left or one throws; `n` counts the moves of the step so far. */
    method FlushMicrotasks(ghost start: Config, ghost target: real, ghost mode: Mode, ghost done: nat, ghost bound: nat)
      returns (threw: bool, ghost n: nat)
      requires mode.Flushing? || mode.Settling?
      requires Iterate(program, start, target, bound).mode.Finished?
      requires Iterate(program, start, target, done) == View(mode) && done < bound
      modifies this`tasks, this`nextHandle, this`microtasks, this`log
      ensures done < n <= bound
      ensures Iterate(program, start, target, n) == Flushed(View(mode), threw)
    {
      hide Iterate, Call, Next, Flushed;
      n, threw := done, false;
      while |microtasks| > 0
        invariant done <= n < bound && Iterate(program, start, target, n) == View(mode)
        decreases bound - n
      {
        hide Iterate, Call, Next, Flushed;
        ghost var before := View(mode);
        FlushMoves(program, before, target);
        MoveOn(program, start, target, n, bound);
        var callback := microtasks[0];
        microtasks := microtasks[1..];
        ghost var called := View(mode);
        assert called == before.(micro := before.micro[1..]);
        threw := RunCallback(None, callback);
        assert (View(mode), threw) == Call(program, called, None, callback);
        n := n + 1;
        if threw {
          return;
        }
        CallKeepsMode(program, before.(micro := before.micro[1..]), None, callback);
      }
      hide Iterate, Call, Next, Flushed;
      FlushMoves(program, View(mode), target);
      MoveOn(program, start, target, n, bound);
      n := n + 1;
      threw := false;
    }

    /** Advances the clock, running every timer due by the target; `bound` is any number of moves
        within which the step comes to its end. */
    method Step(ms: real, ghost bound: nat) returns (threw: bool)
      requires ms >= 0.0
      requires Iterate(program, View(Picking), simulatedNowMs + ms, bound).mode.Finished?
      modifies this`simulatedNowMs, this`tasks, this`nextHandle, this`microtasks, this`log
      ensures EndsAt(program, old(View(Picking)), old(simulatedNowMs) + ms, bound, View(Finished(threw)))
    {
      hide Iterate, Call, Next, NextDue, Rearm;
      var targetMs := simulatedNowMs + ms;
      ghost var start := View(Picking);
      ghost var n := 0;
      StartOf(program, start, targetMs, bound);
      while true
        invariant n < bound && Iterate(program, start, targetMs, n) == View(Picking)
        decreases bound - n
      {
        hide Iterate, Call, Next, NextDue, Rearm;
        var task := NextDueTask(targetMs);
        PickMoves(program, View(Picking), targetMs);
        MoveOn(program, start, targetMs, n, bound);
        if task.None? {
          break;
        }
        ghost var picked := View(Picking).(now := task.value.due);
        simulatedNowMs := task.value.due;
        assert View(Picking) == picked;
        var failed := RunCallback(Some(task.value.handle), task.value.callback);
        assert (View(Picking), failed) == Call(program, picked, Some(task.value.handle), task.value.callback);
        CallKeepsMode(program, picked, Some(task.value.handle), task.value.callback);
        n := n + 1;
        if !failed {
          ghost var m;
          assert View(Picking).(mode := Flushing(task.value.handle)) == View(Flushing(task.value.handle));
          failed, m := FlushMicrotasks(start, targetMs, Flushing(task.value.handle), n, bound);
          n := m;
        }
        FinishTask(task.value.handle);
        NotFinishedYet(program, start, targetMs, n, bound);
      }
      hide Iterate, Call, Next, NextDue, Rearm;
      simulatedNowMs := targetMs;
      n := n + 1;
      ghost var m;
      threw, m := FlushMicrotasks(start, targetMs, Settling, n, bound);
      assert Iterate(program, start, targetMs, m).mode.Finished?;
      StaysFinished(program, start, targetMs, m, bound);
    }
  }

  /** Where a flush leaves a step. */
  function Flushed(c: Config, threw: bool): Config {
    if c.mode.Flushing? then Finish(c, c.mode.handle) else c.(mode := Finished(threw))
  }

  lemma FlushMoves(program: Program, c: Config, target: real)
    requires c.mode.Flushing? || c.mode.Settling?
    ensures c.micro == [] ==> Next(program, c, target) == Flushed(c, false)
    ensures c.micro != [] ==>
              var (after, threw) := Call(program, c.(micro := c.micro[1..]), None, c.micro[0]);
              Next(program, c, target) == if threw then Flushed(after, true) else after
  {
    hide Perform;
  }

  lemma CallKeepsMode(program: Program, c: Config, handle: Option<nat>, callback: Callback)
    ensures Call(program, c, handle, callback).0.mode == c.mode
  {
    hide Perform;
  }

  lemma PickMoves(program: Program, c: Config, target: real)
    requires c.mode.Picking?
    ensures var task := NextDue(c.tasks, target);
            if task.None? then Next(program, c, target) == c.(now := target, mode := Settling)
            else
              var (after, threw) := Call(program, c.(now := task.value.due), Some(task.value.handle), task.value.callback);
              Next(program, c, target) == if threw then Finish(after, task.value.handle) else after.(mode := Flushing(task.value.handle))
  {
    hide Perform, NextDue;
  }

  lemma StartOf(program: Program, start: Config, target: real, bound: nat)
    requires start.mode.Picking? && Iterate(program, start, target, bound).mode.Finished?
    ensures Iterate(program, start, target, 0) == start && 0 < bound
  {
  }

  lemma MoveOn(program: Program, start: Config, target: real, n: nat, bound: nat)
    requires n < bound && Iterate(program, start, target, bound).mode.Finished?
    ensures Iterate(program, start, target, n + 1) == Next(program, Iterate(program, start, target, n), target)
    ensures !Iterate(program, start, target, n + 1).mode.Finished? ==> n + 1 < bound
  {
  }

  lemma NotFinishedYet(program: Program, start: Config, target: real, n: nat, bound: nat)
    requires n <= bound && Iterate(program, start, target, bound).mode.Finished?
    ensures !Iterate(program, start, target, n).mode.Finished? ==> n < bound
  {
  }

  lemma {:induction false} PerformAnyMode(c: Config, actions: seq<Action>, mode: Mode)
    ensures Perform(c.(mode := mode), actions) == (Perform(c, actions).0.(mode := mode), Perform(c, actions).1)
    decreases actions
  {
    if actions != [] {
      var rest := actions[1..];
      match actions[0] {
        case SetTimeout(callback, delay) => PerformAnyMode(AddTask(c, callback, c.now + AtLeastZero(delay), None), rest, mode);
        case SetInterval(callback, interval) => PerformAnyMode(AddTask(c, callback, c.now + interval, Some(interval)), rest, mode);
        case ClearTimeout(handle) => PerformAnyMode(c.(tasks := Without(c.tasks, handle)), rest, mode);
        case QueueMicrotask(callback) => PerformAnyMode(c.(micro := c.micro + [callback]), rest, mode);
        case Throw =>
      }
    }
  }
}
