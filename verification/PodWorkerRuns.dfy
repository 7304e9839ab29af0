/** What the workers of a pod do over whole runs, and runs in which a record is inserted too early. */
module PodWorkerRuns {
  import opened Options
  import opened PodWorkers

  predicate Path(steps: seq<Step>, states: seq<State>) {
    && |states| == |steps| + 1
    && forall i :: 0 <= i < |steps| ==> Enabled(states[i], steps[i]) && states[i + 1] == Apply(states[i], steps[i])
  }

  /** A path from a state on, throughout the life of one record. */
  predicate LifeFrom(s: State, steps: seq<Step>, states: seq<State>) {
    Path(steps, states) && states[0] == s && forall i :: 0 <= i < |states| ==> states[i].record.Some?
  }

  predicate TwoSync(s: State) {
    exists v, w :: 0 <= v < w < |s.workers| && s.workers[v].Syncing? && s.workers[w].Syncing?
  }

  lemma PathMore(steps: seq<Step>, states: seq<State>, step: Step)
    requires Path(steps, states) && Enabled(states[|steps|], step)
    ensures Path(steps + [step], states + [Apply(states[|steps|], step)])
  {
    hide Enabled, Apply;
  }

  // ----- how record and channel belong together, in every run -----

  /** Only the newest channel can be open, and it is while there is an unfinished record. */
  predicate Wired(s: State) {
    ChannelsOk(s) && (s.current.Some? <==> s.record.Some? && !s.record.value.finished)
  }

  lemma SendWired(s: State)
    requires ChannelsOk(s)
    ensures ChannelsOk(Send(s)) && Send(s).current == s.current && Send(s).record == s.record
    ensures ChannelsOk(Drain(s)) && Drain(s).current == s.current && Drain(s).record == s.record
    ensures ChannelsOk(OpenChannel(s)) && OpenChannel(s).current.Some? && OpenChannel(s).record == s.record
    ensures ChannelsOk(CleanUp(s)) && CleanUp(s).current.None? && CleanUp(s).record == s.record
  {
  }

  lemma SameWiring(s: State, r: Option<Record>, w: nat, phase: Phase)
    requires ChannelsOk(s)
    ensures ChannelsOk(s.(record := r)) && (w < |s.workers| ==> ChannelsOk(SetWorker(s, w, phase)))
  {
  }

  lemma QueueWired(s: State, r: Record, u: Update)
    requires ChannelsOk(s) && !r.finished
    ensures Wired(Queue(s, r, u))
  {
    var next := r.(pending := Some(u), working := true);
    SendWired(s);
    SameWiring(OpenChannel(s), Some(next), 0, Waiting);
    SendWired(OpenChannel(s).(record := Some(next)));
    hide ChannelsOk, Send, OpenChannel;
  }

  lemma RequeueWired(s: State, r: Record)
    requires Wired(s) && s.record.Some? && r.finished == s.record.value.finished
    ensures Wired(Requeue(s, r)) && Requeue(s, r).workers == s.workers
  {
    var next := r.(pending := r.active, working := true);
    SameWiring(s, Some(r), 0, Waiting);
    SameWiring(s, Some(next), 0, Waiting);
    SendWired(s.(record := Some(next)));
    hide ChannelsOk;
  }

  /** What an update never touches of a record. */
  lemma ReactFlags(r: Record, u: Update, firstTime: bool, isRuntime: bool)
    ensures var now := React(r, u, firstTime, isRuntime).record;
            && now == r.(observedRuntime := now.observedRuntime, terminating := now.terminating, marks := now.marks, gracePeriod := now.gracePeriod)
            && (r.terminating ==> now.terminating)
    ensures React(r, u, firstTime, isRuntime).Enqueue? ==> !r.finished
  {
    hide Grace, PodOf;
    var r1 := if isRuntime then r.(observedRuntime := true) else r;
    var pod := PodOf(r1, u, isRuntime);
    var v := if isRuntime && pod.Some? then u.(pod := pod, running := false) else u;
    TerminateFlags(r1, v, pod, isRuntime);
    hide Terminate, ReactTerminating;
  }

  lemma TerminateFlags(r: Record, u: Update, pod: Option<Pod>, isRuntime: bool)
    ensures var now := ReactTerminating(Terminate(r, u, pod, isRuntime), u, pod, isRuntime).record;
            && now == r.(terminating := now.terminating, marks := now.marks, gracePeriod := now.gracePeriod)
            && (r.terminating ==> now.terminating)
  {
    var t := Terminate(r, u, pod, isRuntime);
    assert t == r.(terminating := t.terminating, marks := t.marks) && (r.terminating ==> t.terminating);
    hide Grace, Terminate;
  }

  lemma SameChannels(s: State, t: State)
    requires ChannelsOk(s) && t.channels == s.channels && t.workers == s.workers && t.current == s.current
    ensures ChannelsOk(t)
  {
  }

  lemma AskWired(s: State, u: Update, cacheTerminal: bool)
    requires Wired(s)
    ensures Wired(UpdatePod(s, u, cacheTerminal))
  {
    hide React, Queue, ChannelsOk;
    if Accepted(u) {
      var isRuntime := u.pod.None?;
      var v := if isRuntime then u else u.(running := false);
      var t, r := if s.record.Some? then s else s.(epochs := s.epochs + 1),
                  if s.record.Some? then s.record.value else Fresh(s.epochs, Born(u, cacheTerminal));
      SameChannels(s, t);
      var reaction := React(r, v, s.record.None?, isRuntime);
      ReactFlags(r, v, s.record.None?, isRuntime);
      if s.record.None? {
        FirstEnqueues(s.epochs, Born(u, cacheTerminal), v, isRuntime);
      }
      if reaction.Enqueue? {
        QueueWired(t, reaction.record, reaction.update);
      } else {
        SameWiring(t, Some(reaction.record), 0, Waiting);
      }
    }
  }

  lemma ReturnWired(s: State, w: nat, failed: bool, terminal: bool)
    requires Wired(s) && w < |s.workers| && s.workers[w].Syncing?
    ensures Wired(SyncReturns(s, w, failed, terminal))
  {
    hide ChannelsOk;
    CompletionsWired(s, s.workers[w].epoch);
    hide CompleteSync, CompleteTerminating, CompleteTerminatingRuntime, CompleteTerminated;
    SameWiring(s, s.record, w, Completing);
    SameWiring(CompleteTerminated(s), s.record, w, Exited);
    SameWiring(CompleteTerminatingRuntime(s), s.record, w, Exited);
    SameWiring(CompleteTerminating(s, s.workers[w].epoch), s.record, w, Completing);
    SameWiring(CompleteSync(s), s.record, w, Completing);
  }

  lemma CompletionsWired(s: State, epoch: nat)
    requires Wired(s)
    ensures Wired(CompleteSync(s)) && Wired(CompleteTerminating(s, epoch))
    ensures Wired(CompleteTerminatingRuntime(s)) && Wired(CompleteTerminated(s))
    ensures |CompleteSync(s).workers| == |CompleteTerminating(s, epoch).workers| == |s.workers|
    ensures |CompleteTerminatingRuntime(s).workers| == |CompleteTerminated(s).workers| == |s.workers|
  {
    SendWired(s);
    SameWiring(CleanUp(s), None, 0, Waiting);
    assert CleanUp(s).workers == s.workers;
    hide ChannelsOk, Requeue, CleanUp;
    if s.record.Some? {
      var r := s.record.value;
      RequeueWired(s, r.(terminating := true, marks := r.marks.(startedTerminating := true)));
      RequeueWired(s, r.(terminated := true, story := r.story.(ended := r.story.ended || r.story.epoch == epoch)));
      SameWiring(CleanUp(s), Some(r.(finished := true, working := false)), 0, Waiting);
    }
  }

  lemma SweepWired(s: State, orphaned: bool)
    requires Wired(s) && s.record.Some?
    ensures Wired(RemoveTerminatedWorker(s, s.record.value, orphaned))
  {
    SendWired(s);
    SameWiring(CleanUp(s), None, 0, Waiting);
    hide ChannelsOk, Requeue, CleanUp, Grace;
    var r := s.record.value.(marks := s.record.value.marks.(deleted := true));
    var grace := if r.active.Some? && r.active.value.pod.Some? then Grace(r.gracePeriod, r.active.value.pod, None) else 1;
    RequeueWired(s, r.(terminating := true, gracePeriod := grace));
    RequeueWired(s, r);
  }

  lemma StartWired(s: State, w: nat)
    requires Wired(s) && w < |s.workers|
    ensures Wired(StartPodSync(s, w)) && Wired(CompleteWork(s, w))
  {
    SendWired(s);
    hide ChannelsOk, MergeLastUpdate, PhaseOf, Send, Drain;
    SendRecord(s);
    SameWiring(s, s.record, w, Waiting);
    if s.record.Some? {
      var r := s.record.value;
      SameWiring(s, Some(r.(working := false)), 0, Waiting);
      SameWiring(s.(record := Some(r.(working := false))), None, w, Waiting);
      SendWorkers(s);
      SameWiring(Send(s), None, w, Waiting);
      if r.pending.Some? {
        var next := HandedOut(r, r.pending.value);
        SameWiring(Drain(s), Some(next), 0, Waiting);
        SameWiring(Drain(s).(record := Some(next)), None, w, PhaseOf(r, r.pending.value));
      }
    }
  }

  lemma SendWorkers(s: State)
    ensures Send(s).workers == s.workers
  {
  }

  lemma StepWired(s: State, step: Step)
    requires Wired(s) && Enabled(s, step)
    ensures Wired(Apply(s, step))
  {
    match step {
      case Ask(u, cacheTerminal) => AskWired(s, u, cacheTerminal);
      case Return(w, failed, terminal) => ReturnWired(s, w, failed, terminal);
      case Sweep(orphaned) => SweepWired(s, orphaned);
      case Start(w) => StartWired(s, w);
      case Finish(w) => StartWired(s, w);
      case _ =>
    }
  }

  /** In every run, orderly or not. */
  lemma {:induction false} RunsKeepWired(steps: seq<Step>, states: seq<State>, n: nat)
    requires Run(steps, states) && n <= |steps|
    ensures Wired(states[n])
  {
    if n > 0 {
      RunsKeepWired(steps, states, n - 1);
      hide Apply, Enabled, Wired;
      StepWired(states[n - 1], steps[n - 1]);
    }
  }

  // ----- one step at a time -----

  const PLAIN: Update := Update(ModifyUpdate, Some(Pod(false, false, None, None)), false, None)

  /** An open record with its worker's channel. */
  predicate Open(s: State, c: nat) {
    s.record.Some? && !s.record.value.finished && s.current == Some(c) && c < |s.channels| == |s.workers|
  }

  predicate CanStart(r: Record) {
    r.pending.Some? && (r.started || r.pending.value.pod.Some? || (r.pending.value.running && WorkOf(r).TerminatingPod?))
  }

  /** Any woken worker, current or not, takes the pending update and syncs. */
  lemma StartSyncs(s: State, c: nat, w: nat)
    requires Open(s, c) && CanStart(s.record.value) && w < |s.workers| && s.workers[w].Woken?
    ensures Enabled(s, Start(w))
    ensures var t := Apply(s, Start(w)); Open(t, c) && t.workers[w].Syncing? && t.workers == s.workers[w := t.workers[w]]
  {
    hide MergeLastUpdate;
  }

  /** A plain update of an open record is queued and wakes the record's worker. */
  lemma AskWakes(s: State, c: nat)
    requires Open(s, c)
    ensures Enabled(s, Ask(PLAIN, false))
    ensures var t := Apply(s, Ask(PLAIN, false));
            Open(t, c) && CanStart(t.record.value) && t.workers == s.workers && t.channels[c].token
  {
    hide Grace;
    PlainEnqueues(s.record.value);
    hide React;
  }

  lemma PlainEnqueues(r: Record)
    requires !r.finished
    ensures var reaction := React(r, PLAIN, false, false);
            reaction.Enqueue? && reaction.update.pod.Some? && !reaction.record.finished
  {
    hide Grace;
  }

  lemma ReceiveWakes(s: State, c: nat, w: nat)
    requires Open(s, c) && w < |s.workers| && s.workers[w].Waiting? && s.channels[w].token
    ensures Enabled(s, Receive(w))
    ensures var t := Apply(s, Receive(w)); Open(t, c) && t.record == s.record && t.workers == s.workers[w := Woken]
  {
  }

  // ----- inserting a record -----

  /** Created already terminated: the pod has ended and the runtime has nothing of it running. */
  predicate Born(u: Update, cacheTerminal: bool) {
    u.pod.Some? && u.pod.value.ended && cacheTerminal
  }

  /** An inserted record has its first update pending, and a new worker with a token. */
  lemma InsertOpens(s: State, u: Update, cacheTerminal: bool)
    requires Wired(s) && s.record.None? && Accepted(u)
    ensures var t, c := UpdatePod(s, u, cacheTerminal), |s.workers|;
            && Open(t, c) && CanStart(t.record.value)
            && t.workers == s.workers + [Waiting] && t.channels == s.channels + [Wakeup(true, true)]
            && t.record.value.story == Story(s.epochs, Born(u, cacheTerminal), false, []) && t.record.value.active.None?
            && (t.record.value.terminated <==> Born(u, cacheTerminal)) && !t.record.value.started
  {
    var isRuntime := u.pod.None?;
    var first := if isRuntime then u else u.(running := false);
    FirstEnqueues(s.epochs, Born(u, cacheTerminal), first, isRuntime);
    FirstCanStart(s.epochs, Born(u, cacheTerminal), first, isRuntime);
    hide React;
  }

  lemma FirstCanStart(epoch: nat, born: bool, u: Update, isRuntime: bool)
    requires (isRuntime ==> !born) && (if isRuntime then u.pod.None? && u.running else u.pod.Some?)
    ensures var reaction := React(Fresh(epoch, born), u, true, isRuntime);
            && reaction.Enqueue? && !reaction.record.finished && CanStart(reaction.record.(pending := Some(reaction.update), working := true))
            && reaction.record.story == Story(epoch, born, false, []) && reaction.record.active.None?
            && reaction.record.terminated == born && !reaction.record.started
  {
    hide Grace;
  }

  /** Brings a worker that is awake, or about to be, to its sync of the pending update. */
  lemma SyncOf(s: State, c: nat, w: nat) returns (steps: seq<Step>, states: seq<State>)
    requires Open(s, c) && CanStart(s.record.value) && w < |s.workers|
    requires s.workers[w].Woken? || (s.workers[w].Waiting? && s.channels[w].token)
    ensures LifeFrom(s, steps, states)
    ensures var t := states[|steps|];
            Open(t, c) && |t.workers| == |s.workers| && t.workers[w].Syncing? && t.workers == s.workers[w := t.workers[w]]
  {
    hide Apply, Enabled;
    steps, states := [], [s];
    var now := s;
    if s.workers[w].Waiting? {
      ReceiveWakes(s, c, w);
      PathMore(steps, states, Receive(w));
      now := Apply(s, Receive(w));
      steps, states := [Receive(w)], [s, now];
    }
    StartSyncs(now, c, w);
    PathMore(steps, states, Start(w));
    steps, states := steps + [Start(w)], states + [Apply(now, Start(w))];
  }

  lemma LifeJoins(s: State, steps: seq<Step>, states: seq<State>, more: seq<Step>, after: seq<State>)
    requires LifeFrom(s, steps, states) && LifeFrom(states[|steps|], more, after)
    ensures LifeFrom(s, steps + more, states + after[1..])
    ensures (states + after[1..])[|steps + more|] == after[|more|]
  {
    var all, every := steps + more, states + after[1..];
    hide Enabled, Apply;
    forall i | 0 <= i < |all|
      ensures Enabled(every[i], all[i]) && every[i + 1] == Apply(every[i], all[i])
    {
      if i >= |steps| {
        assert every[i] == after[i - |steps|] && every[i + 1] == after[i - |steps| + 1];
        assert Enabled(after[i - |steps|], more[i - |steps|]);
      } else {
        assert Enabled(states[i], steps[i]);
      }
    }
  }

  lemma OneStep(s: State, step: Step)
    requires Enabled(s, step) && s.record.Some? && Apply(s, step).record.Some?
    ensures LifeFrom(s, [step], [s, Apply(s, step)])
  {
    hide Enabled, Apply;
  }

  // ----- orderly runs -----

  /** Throughout an orderly run, in which records are inserted only when every earlier worker has left
      or waits with no token, at most one worker is past its receive. */
  lemma OneWorkerAlways(steps: seq<Step>, states: seq<State>, n: nat, v: nat, w: nat)
    requires Run(steps, states) && OrderlyRun(steps, states) && n <= |steps|
    requires var s := states[n]; s.record.Some? && v < |s.workers| == |s.channels| && w < |s.workers| && !Idle(s, v) && !Idle(s, w)
    ensures v == w
  {
    RunsKeep(steps, states, n);
    OneWorker(states[n], v, w);
  }

  // ----- what can happen otherwise -----

  const PLAIN_POD := Some(Pod(false, false, None, None))
  const KILL: Update := Update(KillUpdate, PLAIN_POD, false, None)
  const KILL_RUNTIME: Update := Update(KillUpdate, None, true, None)
  const ONE_SECOND := Some(Kill(false, Some(1)))

  /** What the worker of the first record syncs to the end, and what the record remembers of it. */
  const TERMINATE: Update := Update(KillUpdate, PLAIN_POD, false, ONE_SECOND)
  const AGAIN: Update := Update(ModifyUpdate, PLAIN_POD, false, ONE_SECOND)
  const REMEMBERED: Update := Update(SyncUpdate, PLAIN_POD, false, ONE_SECOND)

  function New(epoch: nat): Record {
    Fresh(epoch, false).(pending := Some(PLAIN), working := true)
  }

  const OFF := Wakeup(false, false)
  const IDLE := Wakeup(false, true)
  const TOLD := Wakeup(true, true)

  /** A path from one state to another. */
  predicate Leads(steps: seq<Step>, states: seq<State>, s: State, t: State) {
    Path(steps, states) && states[0] == s && states[|steps|] == t
  }

  lemma LeadsOne(s: State, step: Step)
    requires Enabled(s, step)
    ensures Leads([step], [s, Apply(s, step)], s, Apply(s, step))
  {
    hide Enabled, Apply;
  }

  lemma LeadsOn(steps: seq<Step>, states: seq<State>, s: State, t: State, step: Step)
    requires Leads(steps, states, s, t) && Enabled(t, step)
    ensures Leads(steps + [step], states + [Apply(t, step)], s, Apply(t, step))
  {
    hide Enabled, Apply;
    PathMore(steps, states, step);
  }

  const EMPTY := State(None, None, [], [], 0)

  /** A record inserted too early: a worker woken for the removed one is still awake. */
  const EARLY := State(Some(New(1)), Some(1), [OFF, TOLD], [Woken, Waiting], 2)

  lemma InsertedEarly() returns (steps: seq<Step>, states: seq<State>)
    ensures Leads(steps, states, EMPTY, EARLY)
  {
    FirstInserted();
    SecondInserted();
    hide Apply, Enabled, Leads;
    var s1, s2 := State(Some(New(0)), Some(0), [TOLD], [Waiting], 1), State(Some(New(0)), Some(0), [IDLE], [Woken], 1);
    var s3 := State(None, None, [OFF], [Woken], 1);
    LeadsOne(EMPTY, Ask(PLAIN, false));
    steps, states := [Ask(PLAIN, false)], [EMPTY, s1];
    LeadsOn(steps, states, EMPTY, s1, Receive(0));
    steps, states := steps + [Receive(0)], states + [s2];
    LeadsOn(steps, states, EMPTY, s2, Sweep(true));
    steps, states := steps + [Sweep(true)], states + [s3];
    LeadsOn(steps, states, EMPTY, s3, Ask(PLAIN, false));
    steps, states := steps + [Ask(PLAIN, false)], states + [EARLY];
  }

  lemma FirstInserted()
    ensures var s1 := State(Some(New(0)), Some(0), [TOLD], [Waiting], 1);
            && Enabled(EMPTY, Ask(PLAIN, false)) && Apply(EMPTY, Ask(PLAIN, false)) == s1
            && Enabled(s1, Receive(0)) && Apply(s1, Receive(0)) == State(Some(New(0)), Some(0), [IDLE], [Woken], 1)
  {
    hide Grace;
  }

  lemma SecondInserted()
    ensures var s2, s3 := State(Some(New(0)), Some(0), [IDLE], [Woken], 1), State(None, None, [OFF], [Woken], 1);
            && Enabled(s2, Sweep(true)) && Apply(s2, Sweep(true)) == s3
            && Enabled(s3, Ask(PLAIN, false)) && Apply(s3, Ask(PLAIN, false)) == EARLY
  {
    hide Grace;
    NewBySecond();
    hide UpdatePod;
  }

  lemma NewBySecond()
    ensures UpdatePod(State(None, None, [OFF], [Woken], 1), PLAIN, false) == EARLY
  {
    hide Grace;
    assert [OFF] + [IDLE] == [OFF, IDLE] && [OFF, IDLE][1 := TOLD] == [OFF, TOLD];
    assert [Woken] + [Waiting] == [Woken, Waiting];
  }

  // The record is asked to terminate; the old worker takes that up, and the record's own worker
  // brings the record to its end meanwhile.

  function Killed(): Record {
    New(1).(terminating := true, gracePeriod := 1, pending := Some(TERMINATE))
  }

  function Taken(): Record {
    Killed().(pending := None, active := Some(REMEMBERED), started := true, story := Story(1, false, false, [TerminatingPod]))
  }

  function Asked(): Record {
    Taken().(pending := Some(AGAIN))
  }

  function Shared(): Record {
    Asked().(pending := None, story := Story(1, false, false, [TerminatingPod, TerminatingPod]))
  }

  function Ended(): Record {
    Shared().(terminated := true, pending := Some(REMEMBERED), story := Story(1, false, true, [TerminatingPod, TerminatingPod]))
  }

  function Last(): Record {
    Ended().(pending := None, story := Story(1, false, true, [TerminatingPod, TerminatingPod, TerminatedPod]))
  }

  function Closed(): Record {
    Last().(finished := true, working := false)
  }

  const STILL := Syncing(TerminatingPod, TERMINATE, 1)

  function During(r: Record, channel: Wakeup, second: Phase): State {
    State(Some(r), Some(1), [OFF, channel], [STILL, second], 2)
  }

  lemma KillAndTake()
    ensures var s := State(Some(Killed()), Some(1), [OFF, TOLD], [Woken, Waiting], 2);
            && Enabled(EARLY, Ask(KILL, false)) && Apply(EARLY, Ask(KILL, false)) == s
            && Enabled(s, Start(0)) && Apply(s, Start(0)) == During(Taken(), IDLE, Waiting)
  {
    KillReacts();
    hide React;
    assert [OFF, TOLD][1 := TOLD] == [OFF, TOLD];
    assert [] + [TerminatingPod] == [TerminatingPod];
  }

  lemma KillReacts()
    ensures React(New(1), KILL, false, false) == Enqueue(Killed().(pending := Some(PLAIN)), TERMINATE)
  {
  }

  lemma AgainReacts()
    ensures React(Taken(), PLAIN, false, false) == Enqueue(Taken(), AGAIN)
  {
  }

  lemma AskAgain()
    ensures var s, t := During(Taken(), IDLE, Waiting), During(Asked(), TOLD, Waiting);
            && Enabled(s, Ask(PLAIN, false)) && Apply(s, Ask(PLAIN, false)) == t
            && Enabled(t, Receive(1)) && Apply(t, Receive(1)) == During(Asked(), IDLE, Woken)
  {
    AgainReacts();
    hide React;
  }

  lemma ShareAndEnd()
    ensures var s, t := During(Asked(), IDLE, Woken), During(Shared(), IDLE, Syncing(TerminatingPod, AGAIN, 1));
            && Enabled(s, Start(1)) && Apply(s, Start(1)) == t
            && Enabled(t, Return(1, false, false)) && Apply(t, Return(1, false, false)) == During(Ended(), TOLD, Completing)
  {
    assert [TerminatingPod] + [TerminatingPod] == [TerminatingPod, TerminatingPod];
  }

  lemma FinishAndWake()
    ensures var s, t := During(Ended(), TOLD, Completing), During(Ended(), TOLD, Waiting);
            && Enabled(s, Finish(1)) && Apply(s, Finish(1)) == t
            && Enabled(t, Receive(1)) && Apply(t, Receive(1)) == During(Ended(), IDLE, Woken)
  {
  }

  const LEFT := State(None, None, [OFF, OFF], [STILL, Exited], 2)

  lemma LastAndClose()
    ensures var s, t := During(Ended(), IDLE, Woken), During(Last(), IDLE, Syncing(TerminatedPod, REMEMBERED, 1));
            var u := State(Some(Closed()), None, [OFF, OFF], [STILL, Exited], 2);
            && Enabled(s, Start(1)) && Apply(s, Start(1)) == t
            && Enabled(t, Return(1, false, false)) && Apply(t, Return(1, false, false)) == u
            && Enabled(u, Sweep(true)) && Apply(u, Sweep(true)) == LEFT
  {
    assert [TerminatingPod, TerminatingPod] + [TerminatedPod] == [TerminatingPod, TerminatingPod, TerminatedPod];
  }

  /** A run after which a worker still syncs the end of a record that has gone. */
  lemma WorkerLeft() returns (steps: seq<Step>, states: seq<State>)
    ensures Leads(steps, states, EMPTY, LEFT)
  {
    steps, states := InsertedEarly();
    KillAndTake();
    AskAgain();
    ShareAndEnd();
    FinishAndWake();
    LastAndClose();
    hide Apply, Enabled, Leads, During, Killed, Taken, Asked, Shared, Ended, Last, Closed;
    var killed := State(Some(Killed()), Some(1), [OFF, TOLD], [Woken, Waiting], 2);
    steps, states := Onward(steps, states, EARLY, Ask(KILL, false), killed);
    steps, states := Onward(steps, states, killed, Start(0), During(Taken(), IDLE, Waiting));
    steps, states := Onward(steps, states, During(Taken(), IDLE, Waiting), Ask(PLAIN, false), During(Asked(), TOLD, Waiting));
    steps, states := Onward(steps, states, During(Asked(), TOLD, Waiting), Receive(1), During(Asked(), IDLE, Woken));
    var shared := During(Shared(), IDLE, Syncing(TerminatingPod, AGAIN, 1));
    steps, states := Onward(steps, states, During(Asked(), IDLE, Woken), Start(1), shared);
    steps, states := Onward(steps, states, shared, Return(1, false, false), During(Ended(), TOLD, Completing));
    steps, states := Onward(steps, states, During(Ended(), TOLD, Completing), Finish(1), During(Ended(), TOLD, Waiting));
    steps, states := Onward(steps, states, During(Ended(), TOLD, Waiting), Receive(1), During(Ended(), IDLE, Woken));
    var last := During(Last(), IDLE, Syncing(TerminatedPod, REMEMBERED, 1));
    steps, states := Onward(steps, states, During(Ended(), IDLE, Woken), Start(1), last);
    var closed := State(Some(Closed()), None, [OFF, OFF], [STILL, Exited], 2);
    steps, states := Onward(steps, states, last, Return(1, false, false), closed);
    steps, states := Onward(steps, states, closed, Sweep(true), LEFT);
  }

  lemma Onward(steps: seq<Step>, states: seq<State>, s: State, step: Step, t: State) returns (more: seq<Step>, after: seq<State>)
    requires Leads(steps, states, EMPTY, s) && Enabled(s, step) && Apply(s, step) == t
    ensures Leads(more, after, EMPTY, t)
  {
    hide Apply, Enabled, Leads;
    LeadsOn(steps, states, EMPTY, s, step);
    more, after := steps + [step], states + [t];
  }

  function Third(r: Record, phase: Phase, channel: Wakeup, third: Phase): State {
    State(Some(r), Some(2), [OFF, OFF, channel], [phase, Exited, third], 3)
  }

  lemma ThirdInserted()
    ensures Enabled(LEFT, Ask(PLAIN, false)) && Apply(LEFT, Ask(PLAIN, false)) == Third(New(2), STILL, TOLD, Waiting)
  {
    hide Grace;
    assert [OFF, OFF] + [IDLE] == [OFF, OFF, IDLE] && [OFF, OFF, IDLE][2 := TOLD] == [OFF, OFF, TOLD];
    assert [STILL, Exited] + [Waiting] == [STILL, Exited, Waiting];
  }

  lemma ForeignEnd(r: Record)
    requires r.pending.Some? && r.story.epoch == 2
    ensures var s, t := Third(r, STILL, TOLD, Waiting), Third(r.(terminated := true), Completing, TOLD, Waiting);
            && Enabled(s, Return(0, false, false)) && Apply(s, Return(0, false, false)) == t
            && Enabled(t, Receive(2)) && Apply(t, Receive(2)) == Third(r.(terminated := true), Completing, IDLE, Woken)
  {
  }

  lemma HandsTerminated()
    ensures var s := Third(New(2).(terminated := true), Completing, IDLE, Woken);
            && Enabled(s, Start(2))
            && var r := Apply(s, Start(2)).record; r.Some? && r.value.story == Story(2, false, false, [TerminatedPod])
  {
    assert [] + [TerminatedPod] == [TerminatedPod];
  }

  /** A disorderly run in which TerminatedPod is handed out for a record that was not created terminated
      and of which no terminating sync has returned. */
  lemma PrematureTerminatedExample() returns (steps: seq<Step>, states: seq<State>)
    ensures Run(steps, states)
    ensures var r := states[|steps|].record; r.Some? && r.value.story == Story(2, false, false, [TerminatedPod])
  {
    steps, states := WorkerLeft();
    ThirdInserted();
    ForeignEnd(New(2));
    HandsTerminated();
    hide Apply, Enabled, Third, New;
    var inserted := Third(New(2), STILL, TOLD, Waiting);
    var ended := New(2).(terminated := true);
    steps, states := Onward(steps, states, LEFT, Ask(PLAIN, false), inserted);
    steps, states := Onward(steps, states, inserted, Return(0, false, false), Third(ended, Completing, TOLD, Waiting));
    steps, states := Onward(steps, states, Third(ended, Completing, TOLD, Waiting), Receive(2), Third(ended, Completing, IDLE, Woken));
    var s := Third(ended, Completing, IDLE, Woken);
    steps, states := Onward(steps, states, s, Start(2), Apply(s, Start(2)));
  }

  function Runtime(): Record {
    Fresh(2, false).(pending := Some(KILL_RUNTIME.(kill := ONE_SECOND)), working := true, observedRuntime := true,
      terminating := true, gracePeriod := 1, marks := Marks(false, true, false, false))
  }

  lemma RuntimeInserted()
    ensures Enabled(LEFT, Ask(KILL_RUNTIME, false)) && Apply(LEFT, Ask(KILL_RUNTIME, false)) == Third(Runtime(), STILL, TOLD, Waiting)
  {
    RuntimeReacts();
    hide React;
    assert [OFF, OFF] + [IDLE] == [OFF, OFF, IDLE] && [OFF, OFF, IDLE][2 := TOLD] == [OFF, OFF, TOLD];
    assert [STILL, Exited] + [Waiting] == [STILL, Exited, Waiting];
  }

  lemma RuntimeReacts()
    ensures React(Fresh(2, false), KILL_RUNTIME, true, true) ==
            Enqueue(Runtime().(pending := None, working := false), KILL_RUNTIME.(kill := ONE_SECOND))
  {
  }

  lemma LeavesForGood()
    ensures var s := Third(Runtime().(terminated := true), Completing, IDLE, Woken);
            && Enabled(s, Start(2))
            && var t := Apply(s, Start(2)); t.workers[2].Exited? && Open(t, 2)
  {
    hide MergeLastUpdate;
  }

  /** A disorderly run in which an update is pending behind an open channel whose worker has left. */
  lemma StrandedExample() returns (steps: seq<Step>, states: seq<State>)
    ensures Run(steps, states)
    ensures var s := states[|steps|];
            && s.record.Some? && s.record.value.pending.Some? && s.current == Some(2) && |s.workers| == |s.channels| == 3
            && s.channels[2].open && s.workers[2].Exited?
  {
    steps, states := WorkerLeft();
    RuntimeInserted();
    ForeignEnd(Runtime());
    LeavesForGood();
    hide Apply, Enabled, Third, Runtime;
    var inserted, ended := Third(Runtime(), STILL, TOLD, Waiting), Runtime().(terminated := true);
    steps, states := Onward(steps, states, LEFT, Ask(KILL_RUNTIME, false), inserted);
    steps, states := Onward(steps, states, inserted, Return(0, false, false), Third(ended, Completing, TOLD, Waiting));
    steps, states := Onward(steps, states, Third(ended, Completing, TOLD, Waiting), Receive(2), Third(ended, Completing, IDLE, Woken));
    var s := Third(ended, Completing, IDLE, Woken);
    var left := Apply(s, Start(2));
    steps, states := Onward(steps, states, s, Start(2), left);
    StillOpen(s);
    AskWakes(left, 2);
    steps, states := Onward(steps, states, left, Ask(PLAIN, false), Apply(left, Ask(PLAIN, false)));
    StillOpenAsking(left);
  }

  lemma StillOpen(s: State)
    requires s == Third(Runtime().(terminated := true), Completing, IDLE, Woken)
    ensures Enabled(s, Start(2)) && |Apply(s, Start(2)).channels| == 3 && Apply(s, Start(2)).channels[2].open
  {
    hide MergeLastUpdate;
  }

  lemma StillOpenAsking(s: State)
    requires Open(s, 2) && s.channels[2].open && |s.channels| == 3
    ensures var t := Apply(s, Ask(PLAIN, false)); |t.channels| == 3 && t.channels[2].open
  {
    PlainEnqueues(s.record.value);
    hide React;
  }

  /** A disorderly run in which two workers sync one pod at once. */
  lemma TwoWorkersExample() returns (steps: seq<Step>, states: seq<State>)
    ensures Run(steps, states) && TwoSync(states[|steps|])
  {
    steps, states := InsertedEarly();
    NewCanStart();
    hide Apply, Enabled, Leads, New, TwoSync;
    StartSyncs(EARLY, 1, 0);
    var s := Apply(EARLY, Start(0));
    steps, states := Onward(steps, states, EARLY, Start(0), s);
    AskWakes(s, 1);
    var t := Apply(s, Ask(PLAIN, false));
    steps, states := Onward(steps, states, s, Ask(PLAIN, false), t);
    ReceiveWakes(t, 1, 1);
    var u := Apply(t, Receive(1));
    steps, states := Onward(steps, states, t, Receive(1), u);
    StartSyncs(u, 1, 1);
    steps, states := Onward(steps, states, u, Start(1), Apply(u, Start(1)));
    BothSync(Apply(u, Start(1)));
    LeadsRuns(steps, states, Apply(u, Start(1)));
  }

  lemma NewCanStart()
    ensures Open(EARLY, 1) && CanStart(New(1))
  {
  }

  lemma BothSync(s: State)
    requires |s.workers| == 2 && s.workers[0].Syncing? && s.workers[1].Syncing?
    ensures TwoSync(s)
  {
  }

  lemma LeadsRuns(steps: seq<Step>, states: seq<State>, t: State)
    requires Leads(steps, states, EMPTY, t)
    ensures Run(steps, states) && states[|steps|] == t
  {
    hide Enabled, Apply;
  }
}
