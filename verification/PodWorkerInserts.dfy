/** Exactly which insertions of a record keep the promises of its life, from every state that the pod
    workers can reach: no two workers at once, no end of the pod before its time, no update stranded. */
module PodWorkerInserts {
  import opened Options
  import opened PodWorkers
  import opened PodWorkerRuns

  // ----- what holds of a worker whatever was inserted -----

  /** In one life of a record: what a step makes of it. */
  predicate LifeStep(s: State, step: Step) {
    s.record.Some? && Enabled(s, step) && Apply(s, step).record.Some?
  }

  /** A terminating sync that can return without an error, of another record than this one. */
  predicate Foreign(p: Phase, epoch: nat) {
    p.Syncing? && p.work.TerminatingPod? && !p.update.running && p.update.pod.Some? && p.epoch != epoch
  }

  predicate NoForeign(s: State, epoch: nat) {
    forall w :: 0 <= w < |s.workers| ==> !Foreign(s.workers[w], epoch)
  }

  /** The sync of a pod's end returns and succeeds. */
  predicate EndsSync(s: State, step: Step) {
    && step.Return? && step.w < |s.workers| && !step.failed
    && var p := s.workers[step.w];
       p.Syncing? && p.work.TerminatingPod? && !p.update.running && p.update.pod.Some?
  }

  /** The flags of a record over one step: only the end of a terminating sync sets `terminated`. */
  predicate FlagsMove(s: State, step: Step, was: Record, now: Record) {
    && now.story.epoch == was.story.epoch && now.story.born == was.story.born
    && (was.story.ended ==> now.story.ended) && (was.started ==> now.started) && (was.terminating ==> now.terminating)
    && (was.terminated ==> now.terminated)
    && (now.terminated && !was.terminated ==>
          EndsSync(s, step) && (s.workers[step.w].epoch == was.story.epoch ==> now.story.ended))
  }

  lemma RequeueFlags(s: State, r: Record)
    ensures var q := Requeue(s, r);
            && q.record.Some? && q.workers == s.workers && q.current == s.current && |q.channels| == |s.channels|
            && q.record.value == r.(pending := q.record.value.pending, working := q.record.value.working)
            && q.record.value.pending == if r.pending.Some? then r.pending else r.active
  {
  }

  lemma QueueFlags(s: State, r: Record, u: Update)
    ensures Queue(s, r, u).record == Some(r.(pending := Some(u), working := true))
  {
  }

  lemma AskFlags(s: State, u: Update, cacheTerminal: bool)
    requires s.record.Some?
    ensures Apply(s, Ask(u, cacheTerminal)).record.Some?
    ensures FlagsMove(s, Ask(u, cacheTerminal), s.record.value, Apply(s, Ask(u, cacheTerminal)).record.value)
  {
    hide React, Queue;
    if Accepted(u) {
      var isRuntime := u.pod.None?;
      var v := if isRuntime then u else u.(running := false);
      ReactFlags(s.record.value, v, false, isRuntime);
      var reaction := React(s.record.value, v, false, isRuntime);
      if reaction.Enqueue? {
        QueueFlags(s, reaction.record, reaction.update);
      }
    }
  }

  lemma ReturnFlags(s: State, w: nat, failed: bool, terminal: bool)
    requires s.record.Some? && Enabled(s, Return(w, failed, terminal)) && SyncReturns(s, w, failed, terminal).record.Some?
    ensures FlagsMove(s, Return(w, failed, terminal), s.record.value, SyncReturns(s, w, failed, terminal).record.value)
  {
    hide CompleteSync, CompleteTerminating, CompleteTerminated, CleanUp;
    CompletionFlags(s, s.workers[w].epoch);
  }

  /** A record but for its queue of updates. */
  predicate SameButQueue(now: Record, r: Record) {
    now == r.(pending := now.pending, working := now.working)
  }

  lemma CompletionFlags(s: State, epoch: nat)
    requires s.record.Some?
    ensures var r := s.record.value;
            && CompleteSync(s).record.Some?
            && SameButQueue(CompleteSync(s).record.value, r.(terminating := true, marks := r.marks.(startedTerminating := true)))
            && CompleteTerminating(s, epoch).record.Some?
            && SameButQueue(CompleteTerminating(s, epoch).record.value,
                            r.(terminated := true, story := r.story.(ended := r.story.ended || r.story.epoch == epoch)))
            && CompleteTerminated(s).record == Some(r.(finished := true, working := false))
  {
    hide Requeue, CleanUp;
    var r := s.record.value;
    RequeueFlags(s, r.(terminating := true, marks := r.marks.(startedTerminating := true)));
    RequeueFlags(s, r.(terminated := true, story := r.story.(ended := r.story.ended || r.story.epoch == epoch)));
  }

  lemma SweepFlags(s: State, orphaned: bool)
    requires LifeStep(s, Sweep(orphaned))
    ensures FlagsMove(s, Sweep(orphaned), s.record.value, Apply(s, Sweep(orphaned)).record.value)
  {
    hide Requeue, CleanUp, Grace;
    var r := s.record.value.(marks := s.record.value.marks.(deleted := true));
    var grace := if r.active.Some? && r.active.value.pod.Some? then Grace(r.gracePeriod, r.active.value.pod, None) else 1;
    RequeueFlags(s, r.(terminating := true, gracePeriod := grace));
    RequeueFlags(s, r);
  }

  lemma StartFlags(s: State, w: nat)
    requires LifeStep(s, Start(w))
    ensures FlagsMove(s, Start(w), s.record.value, Apply(s, Start(w)).record.value)
  {
    hide Drain, MergeLastUpdate, PhaseOf, WorkOf;
    SendRecord(s);
  }

  lemma StepFlags(s: State, step: Step)
    requires LifeStep(s, step)
    ensures FlagsMove(s, step, s.record.value, Apply(s, step).record.value)
  {
    match step {
      case Ask(u, cacheTerminal) => AskFlags(s, u, cacheTerminal);
      case Return(w, failed, terminal) => ReturnFlags(s, w, failed, terminal);
      case Sweep(orphaned) => SweepFlags(s, orphaned);
      case Start(w) => StartFlags(s, w);
      case Finish(w) => SendRecord(s);
      case _ =>
    }
  }

  /** Only a start makes a worker sync, on the pending update of the record. */
  predicate SyncsMove(s: State, step: Step, t: State) {
    forall w :: 0 <= w < |t.workers| && t.workers[w].Syncing? ==>
      || (w < |s.workers| && t.workers[w] == s.workers[w])
      || (step == Start(w) && s.record.Some? && s.record.value.pending.Some?
          && t.workers[w] == PhaseOf(s.record.value, s.record.value.pending.value))
  }

  lemma UpdateWorkers(s: State, reaction: Reaction)
    ensures var t := UpdateRecord(s, reaction);
            t.workers == s.workers || t.workers == s.workers + [Waiting]
  {
  }

  lemma StepSyncs(s: State, step: Step)
    requires Enabled(s, step)
    ensures SyncsMove(s, step, Apply(s, step))
  {
    hide React, UpdateRecord, Requeue, CleanUp, Send, Drain, Grace, PhaseOf, MergeLastUpdate;
    SendRecord(s);
    match step {
      case Ask(u, cacheTerminal) =>
        if Accepted(u) {
          AskWorkers(s, u, cacheTerminal);
        }
      case Return(w, failed, terminal) => ReturnWorkers(s, w, failed, terminal);
      case Sweep(orphaned) => SweepWorkers(s, orphaned);
      case Finish(w) => FinishWorkers(s, w);
      case _ =>
    }
  }

  lemma AskWorkers(s: State, u: Update, cacheTerminal: bool)
    ensures var t := UpdatePod(s, u, cacheTerminal); t.workers == s.workers || t.workers == s.workers + [Waiting]
  {
    hide React, UpdateRecord;
    var isRuntime := u.pod.None?;
    var v := if isRuntime then u else u.(running := false);
    if s.record.Some? {
      UpdateWorkers(s, React(s.record.value, v, false, isRuntime));
    } else {
      var born := v.pod.Some? && v.pod.value.ended && cacheTerminal;
      UpdateWorkers(s.(epochs := s.epochs + 1), React(Fresh(s.epochs, born), v, true, isRuntime));
    }
  }

  lemma ReturnWorkers(s: State, w: nat, failed: bool, terminal: bool)
    requires w < |s.workers| && s.workers[w].Syncing?
    ensures var t := SyncReturns(s, w, failed, terminal);
            && |t.workers| == |s.workers| && (t.workers[w].Exited? || t.workers[w].Completing?)
            && t.workers == s.workers[w := t.workers[w]]
  {
  }

  lemma SweepWorkers(s: State, orphaned: bool)
    requires s.record.Some?
    ensures RemoveTerminatedWorker(s, s.record.value, orphaned).workers == s.workers
  {
    hide Grace;
  }

  lemma FinishWorkers(s: State, w: nat)
    requires w < |s.workers|
    ensures CompleteWork(s, w).workers == s.workers[w := Waiting]
  {
  }

  /** Record and syncs belong to records inserted so far. */
  predicate Dated(s: State) {
    && (s.record.Some? ==> s.record.value.story.epoch < s.epochs)
    && forall w :: 0 <= w < |s.workers| && s.workers[w].Syncing? ==> s.workers[w].epoch < s.epochs
  }

  lemma EpochsGrow(s: State, step: Step)
    requires Enabled(s, step)
    ensures s.epochs <= Apply(s, step).epochs
  {
    hide React, Send, CleanUp, OpenChannel, Drain, Grace, MergeLastUpdate, PhaseOf, HandedOut;
    SendRecord(s);
    match step {
      case Ask(u, cacheTerminal) => AskEpochs(s, u, cacheTerminal);
      case Return(w, failed, terminal) => ReturnEpochs(s, w, failed, terminal);
      case Sweep(orphaned) => SweepEpochs(s, orphaned);
      case _ =>
    }
  }

  lemma AskEpochs(s: State, u: Update, cacheTerminal: bool)
    ensures s.epochs <= UpdatePod(s, u, cacheTerminal).epochs
  {
    AskMovesRecord(s, u, cacheTerminal);
    hide React;
  }

  lemma ReturnEpochs(s: State, w: nat, failed: bool, terminal: bool)
    requires w < |s.workers| && s.workers[w].Syncing?
    ensures SyncReturns(s, w, failed, terminal).epochs == s.epochs
  {
  }

  lemma SweepEpochs(s: State, orphaned: bool)
    requires s.record.Some?
    ensures RemoveTerminatedWorker(s, s.record.value, orphaned).epochs == s.epochs
  {
    hide Grace;
  }

  lemma StepDated(s: State, step: Step)
    requires Dated(s) && Enabled(s, step)
    ensures Dated(Apply(s, step))
  {
    StepSyncs(s, step);
    StepMovesRecord(s, step);
    EpochsGrow(s, step);
    hide Apply, Enabled;
  }

  lemma {:induction false} RunsKeepDated(steps: seq<Step>, states: seq<State>, n: nat)
    requires Run(steps, states) && n <= |steps|
    ensures Dated(states[n])
  {
    if n > 0 {
      RunsKeepDated(steps, states, n - 1);
      hide Apply, Enabled, Dated;
      StepDated(states[n - 1], steps[n - 1]);
    }
  }

  // ----- the end of a pod before its time -----

  /** TerminatedPod was handed out for a record that was not created terminated, before any terminating
      sync of that record returned without an error. */
  predicate Premature(s: State) {
    s.record.Some? && TerminatedPod in s.record.value.story.handed && !s.record.value.story.born && !s.record.value.story.ended
  }

  ghost predicate NeverPremature(s: State) {
    forall steps, states, n :: LifeFrom(s, steps, states) && 0 <= n < |states| ==> !Premature(states[n])
  }

  predicate Sane(s: State) {
    s.record.Some? ==>
      var r := s.record.value;
      && (r.terminated ==> r.story.born || r.story.ended)
      && (TerminatedPod in r.story.handed ==> r.terminated)
      && NoForeign(s, r.story.epoch)
  }

  lemma ForeignStays(s: State, step: Step)
    requires LifeStep(s, step) && NoForeign(s, s.record.value.story.epoch)
    ensures NoForeign(Apply(s, step), s.record.value.story.epoch)
  {
    StepSyncs(s, step);
    hide Apply, Enabled;
  }

  lemma SaneStep(s: State, step: Step)
    requires LifeStep(s, step) && Sane(s)
    ensures Sane(Apply(s, step))
  {
    StepFlags(s, step);
    StepMovesRecord(s, step);
    ForeignStays(s, step);
    hide Apply, Enabled, NoForeign;
    if EndsSync(s, step) {
      HomeSync(s, step.w, s.record.value.story.epoch);
    }
  }

  lemma HomeSync(s: State, w: nat, epoch: nat)
    requires NoForeign(s, epoch) && w < |s.workers|
    ensures !Foreign(s.workers[w], epoch)
  {
  }

  lemma {:induction false} LifeSane(s: State, steps: seq<Step>, states: seq<State>, n: nat)
    requires LifeFrom(s, steps, states) && n < |states| && Sane(s)
    ensures Sane(states[n]) && !Premature(states[n])
  {
    hide Apply, Enabled, NoForeign;
    if n > 0 {
      LifeSane(s, steps, states, n - 1);
      assert LifeStep(states[n - 1], steps[n - 1]);
      SaneStep(states[n - 1], steps[n - 1]);
    }
  }

  lemma {:induction false} LifeWired(s: State, steps: seq<Step>, states: seq<State>, n: nat)
    requires LifeFrom(s, steps, states) && n < |states| && Wired(s)
    ensures Wired(states[n]) && states[n].record.Some?
  {
    hide Apply, Enabled, Wired;
    if n > 0 {
      LifeWired(s, steps, states, n - 1);
      StepWired(states[n - 1], steps[n - 1]);
    }
  }

  /** A returning foreign sync ends the new record, whose own worker is then handed TerminatedPod. */
  lemma ForeignSyncEnds(s: State, u: Update, cacheTerminal: bool, v: nat) returns (steps: seq<Step>, states: seq<State>)
    requires Wired(s) && s.record.None? && Accepted(u) && !Born(u, cacheTerminal)
    requires v < |s.workers| && Foreign(s.workers[v], s.epochs)
    ensures LifeFrom(UpdatePod(s, u, cacheTerminal), steps, states)
    ensures var t := states[|steps|];
            Premature(t) && Open(t, |s.workers|) && (u.pod.None? ==> t.workers[|s.workers|].Exited?)
  {
    var t, k := UpdatePod(s, u, cacheTerminal), |s.workers|;
    InsertOpens(s, u, cacheTerminal);
    FirstPending(s, u, cacheTerminal);
    ForeignReturn(t, v, k);
    var t1 := Apply(t, Return(v, false, false));
    ReceiveWakes(t1, k, k);
    var t2 := Apply(t1, Receive(k));
    HandsOutEnd(t2, k);
    hide Apply, Enabled, UpdatePod, Open, CanStart;
    var t3 := Apply(t2, Start(k));
    steps, states := [Return(v, false, false), Receive(k), Start(k)], [t, t1, t2, t3];
  }

  /** The first update of a record carries a pod, or is about what runs alone. */
  lemma FirstPending(s: State, u: Update, cacheTerminal: bool)
    requires Wired(s) && s.record.None? && Accepted(u)
    ensures var r := UpdatePod(s, u, cacheTerminal).record;
            r.Some? && r.value.pending.Some? &&
            if u.pod.Some? then r.value.pending.value.pod == u.pod && !r.value.pending.value.running
            else r.value.pending.value.pod.None? && r.value.pending.value.running && r.value.terminating
  {
    var isRuntime := u.pod.None?;
    var first := if isRuntime then u else u.(running := false);
    var epochs := s.epochs;
    FirstUpdate(epochs, Born(u, cacheTerminal), first, isRuntime);
    FirstEnqueues(epochs, Born(u, cacheTerminal), first, isRuntime);
    var reaction := React(Fresh(epochs, Born(u, cacheTerminal)), first, true, isRuntime);
    hide React, Queue;
    QueueFlags(s.(epochs := epochs + 1), reaction.record, reaction.update);
  }

  lemma FirstUpdate(epoch: nat, born: bool, u: Update, isRuntime: bool)
    requires (isRuntime ==> !born) && (if isRuntime then u.pod.None? && u.running else u.pod.Some? && !u.running)
    ensures var reaction := React(Fresh(epoch, born), u, true, isRuntime);
            && reaction.Enqueue? && reaction.update.pod == u.pod && reaction.update.running == u.running
            && (isRuntime ==> reaction.record.terminating)
  {
    hide Grace;
  }

  lemma ForeignReturn(t: State, v: nat, k: nat)
    requires Open(t, k) && t.record.value.pending.Some? && k < |t.workers| && t.workers[k].Waiting? && t.channels[k].token
    requires v < |t.workers| && v != k && Foreign(t.workers[v], t.record.value.story.epoch)
    ensures Enabled(t, Return(v, false, false))
    ensures var t1 := Apply(t, Return(v, false, false));
            && Open(t1, k) && t1.record == Some(t.record.value.(terminated := true))
            && t1.workers == t.workers[v := Completing] && t1.channels == t.channels
  {
  }

  lemma HandsOutEnd(t: State, k: nat)
    requires Open(t, k) && k < |t.workers| && t.workers[k].Woken? && t.record.value.terminated && t.record.value.pending.Some?
    ensures Enabled(t, Start(k))
    ensures var t1 := Apply(t, Start(k));
            && Open(t1, k) && TerminatedPod in t1.record.value.story.handed
            && t1.record.value.story == t.record.value.story.(handed := t1.record.value.story.handed)
            && t1.workers[k] == PhaseOf(t.record.value, t.record.value.pending.value)
  {
    hide MergeLastUpdate;
    var r := t.record.value;
    assert (r.story.handed + [TerminatedPod])[|r.story.handed|] == TerminatedPod;
  }

  /** Exactly which insertions can make TerminatedPod come before its time: those of a record not born
      terminated while a worker still syncs the end of another one. */
  lemma PrematureExactly(s: State, u: Update, cacheTerminal: bool)
    requires Wired(s) && s.record.None? && Accepted(u)
    ensures NeverPremature(UpdatePod(s, u, cacheTerminal)) <==> Born(u, cacheTerminal) || NoForeign(s, s.epochs)
  {
    var t := UpdatePod(s, u, cacheTerminal);
    InsertOpens(s, u, cacheTerminal);
    hide UpdatePod, Wired, LifeFrom, Premature, Open, CanStart;
    if Born(u, cacheTerminal) || NoForeign(s, s.epochs) {
      forall steps, states, n | LifeFrom(t, steps, states) && 0 <= n < |states|
        ensures !Premature(states[n])
      {
        if Born(u, cacheTerminal) {
          BornStays(t, steps, states, n);
        } else {
          InsertedSane(s, t);
          LifeSane(t, steps, states, n);
        }
      }
    } else {
      var v :| 0 <= v < |s.workers| && Foreign(s.workers[v], s.epochs);
      var steps, states := ForeignSyncEnds(s, u, cacheTerminal, v);
      EndsInLife(t, steps, states);
    }
  }

  lemma EndsInLife(t: State, steps: seq<Step>, states: seq<State>)
    requires LifeFrom(t, steps, states)
    ensures 0 <= |steps| < |states|
  {
  }

  lemma InsertedSane(s: State, t: State)
    requires NoForeign(s, s.epochs) && t.workers == s.workers + [Waiting]
    requires t.record.Some? && t.record.value.story == Story(s.epochs, false, false, []) && !t.record.value.terminated
    ensures Sane(t)
  {
  }

  lemma {:induction false} BornStays(t: State, steps: seq<Step>, states: seq<State>, n: nat)
    requires LifeFrom(t, steps, states) && n < |states| && t.record.Some? && t.record.value.story.born
    ensures states[n].record.Some? && states[n].record.value.story.born && !Premature(states[n])
  {
    hide Apply, Enabled;
    if n > 0 {
      BornStays(t, steps, states, n - 1);
      assert LifeStep(states[n - 1], steps[n - 1]);
      StepFlags(states[n - 1], steps[n - 1]);
    }
  }

  // ----- two workers at once -----

  ghost predicate NeverTwo(s: State) {
    forall steps, states, n :: LifeFrom(s, steps, states) && 0 <= n < |states| ==> !TwoSync(states[n])
  }

  /** A worker that will never sync again: it has left, or comes to its channel and finds no token. */
  predicate AtEase(s: State, w: nat)
    requires w < |s.workers| == |s.channels|
  {
    s.workers[w].Exited? || ((s.workers[w].Waiting? || s.workers[w].Completing?) && !s.channels[w].token)
  }

  predicate AllAtEase(s: State, upTo: nat)
    requires |s.workers| == |s.channels|
  {
    forall w :: 0 <= w < upTo && w < |s.workers| ==> AtEase(s, w)
  }

  /** A step that inserts a record. */
  predicate Inserts(s: State, step: Step) {
    step.Ask? && s.record.None? && Accepted(step.update)
  }

  /** Tokens come only to the last channel, which is the one of the record. */
  predicate TokensStay(was: seq<Wakeup>, now: seq<Wakeup>) {
    |now| == |was| && forall w :: 0 <= w && w + 1 < |was| && now[w].token ==> was[w].token
  }

  lemma ChannelTokens(s: State)
    requires ChannelsOk(s)
    ensures |s.channels| == |s.workers|
    ensures TokensStay(s.channels, s.channels) && TokensStay(s.channels, Send(s).channels)
    ensures TokensStay(s.channels, Drain(s).channels) && TokensStay(s.channels, CleanUp(s).channels)
    ensures s.current.Some? ==> OpenChannel(s) == s
  {
  }

  lemma RequeueTokens(s: State, r: Record)
    requires ChannelsOk(s)
    ensures TokensStay(s.channels, Requeue(s, r).channels)
  {
    var next := s.(record := Some(r.(pending := r.active, working := true)));
    SameChannels(s, next);
    ChannelTokens(s);
    ChannelTokens(next);
    hide ChannelsOk, TokensStay, Send;
  }

  lemma AskTokens(s: State, u: Update, cacheTerminal: bool)
    requires Wired(s) && !Inserts(s, Ask(u, cacheTerminal))
    ensures var t := UpdatePod(s, u, cacheTerminal); TokensStay(s.channels, t.channels) && t.workers == s.workers
  {
    ChannelTokens(s);
    hide React, TokensStay, ChannelsOk, Send;
    if Accepted(u) {
      var isRuntime := u.pod.None?;
      var v := if isRuntime then u else u.(running := false);
      ReactFlags(s.record.value, v, false, isRuntime);
      var reaction := React(s.record.value, v, false, isRuntime);
      if reaction.Enqueue? {
        var next := s.(record := Some(reaction.record.(pending := Some(reaction.update), working := true)));
        SameChannels(s, next);
        ChannelTokens(next);
        SendWorkers(next);
        assert Queue(s, reaction.record, reaction.update) == Send(next);
      }
    }
  }

  lemma ReturnTokens(s: State, w: nat, failed: bool, terminal: bool)
    requires ChannelsOk(s) && w < |s.workers| && s.workers[w].Syncing?
    ensures TokensStay(s.channels, SyncReturns(s, w, failed, terminal).channels)
  {
    ChannelTokens(s);
    hide ChannelsOk, TokensStay, Requeue, CleanUp;
    if s.record.Some? {
      var r := s.record.value;
      RequeueTokens(s, r.(terminating := true, marks := r.marks.(startedTerminating := true)));
      RequeueTokens(s, r.(terminated := true, story := r.story.(ended := r.story.ended || r.story.epoch == s.workers[w].epoch)));
    }
  }

  lemma SweepTokens(s: State, orphaned: bool)
    requires ChannelsOk(s) && s.record.Some?
    ensures TokensStay(s.channels, RemoveTerminatedWorker(s, s.record.value, orphaned).channels)
  {
    ChannelTokens(s);
    hide ChannelsOk, TokensStay, Requeue, CleanUp, Grace;
    var r := s.record.value.(marks := s.record.value.marks.(deleted := true));
    var grace := if r.active.Some? && r.active.value.pod.Some? then Grace(r.gracePeriod, r.active.value.pod, None) else 1;
    RequeueTokens(s, r.(terminating := true, gracePeriod := grace));
    RequeueTokens(s, r);
  }

  lemma EaseStep(s: State, step: Step)
    requires Wired(s) && Enabled(s, step) && !Inserts(s, step)
    requires |s.workers| > 0 && AllAtEase(s, |s.workers| - 1)
    ensures var t := Apply(s, step);
            |t.workers| == |t.channels| == |s.workers| && AllAtEase(t, |t.workers| - 1)
  {
    hide React, UpdatePod, SyncReturns, RemoveTerminatedWorker, Drain, Send, ChannelsOk;
    ChannelTokens(s);
    var n := |s.workers| - 1;
    match step {
      case Ask(u, cacheTerminal) =>
        AskTokens(s, u, cacheTerminal);
        EaseStays(s, Apply(s, step), n, n, Waiting);
      case Receive(w) => EaseStays(s, Apply(s, step), n, w, Woken);
      case Leave(w) => EaseStays(s, Apply(s, step), n, w, Exited);
      case Start(w) =>
        StartTokens(s, w);
        EaseStays(s, Apply(s, step), n, w, Apply(s, step).workers[w]);
      case Acknowledge(w) => EaseStays(s, Apply(s, step), n, n, Waiting);
      case Return(w, failed, terminal) =>
        ReturnTokens(s, w, failed, terminal);
        ReturnWorkers(s, w, failed, terminal);
        EaseStays(s, Apply(s, step), n, w, Apply(s, step).workers[w]);
      case Finish(w) =>
        FinishWorkers(s, w);
        EaseStays(s, Apply(s, step), n, w, Waiting);
      case Sweep(orphaned) =>
        SweepTokens(s, orphaned);
        SweepWorkers(s, orphaned);
        EaseStays(s, Apply(s, step), n, n, Waiting);
    }
  }

  lemma StartTokens(s: State, w: nat)
    requires ChannelsOk(s) && w < |s.workers|
    ensures var t := StartPodSync(s, w);
            && TokensStay(s.channels, t.channels) && |t.workers| == |s.workers| && t.workers == s.workers[w := t.workers[w]]
  {
    ChannelTokens(s);
    SendRecord(s);
    hide TokensStay, ChannelsOk, Drain, MergeLastUpdate, PhaseOf;
  }

  /** Workers at ease stay so when no token comes to them and none of them moves, but to leave or from
      completeWork back to its channel. */
  lemma EaseStays(s: State, t: State, n: nat, w: nat, phase: Phase)
    requires |s.workers| == |s.channels| == n + 1 && AllAtEase(s, n) && TokensStay(s.channels, t.channels)
    requires w <= n && (t.workers == s.workers || t.workers == s.workers[w := phase])
    requires w < n && t.workers != s.workers ==>
               phase.Exited? || (phase.Waiting? && s.workers[w].Completing?) || !AtEase(s, w)
    ensures |t.workers| == |t.channels| && AllAtEase(t, n)
  {
    forall v | 0 <= v < n
      ensures AtEase(t, v)
    {
      assert AtEase(s, v);
    }
  }

  lemma {:induction false} LifeEase(s: State, steps: seq<Step>, states: seq<State>, n: nat)
    requires LifeFrom(s, steps, states) && n < |states| && Wired(s) && |s.workers| > 0 && AllAtEase(s, |s.workers| - 1)
    ensures var t := states[n]; Wired(t) && |t.workers| == |s.workers| && AllAtEase(t, |t.workers| - 1)
  {
    hide Apply, Enabled, Wired, AllAtEase;
    LifeWired(s, steps, states, n);
    if n > 0 {
      LifeEase(s, steps, states, n - 1);
      LifeWired(s, steps, states, n - 1);
      EaseStep(states[n - 1], steps[n - 1]);
    }
  }

  lemma EaseSyncsAlone(s: State)
    requires |s.workers| == |s.channels| > 0 && AllAtEase(s, |s.workers| - 1)
    ensures !TwoSync(s)
  {
    forall v, w | 0 <= v < w < |s.workers|
      ensures !(s.workers[v].Syncing? && s.workers[w].Syncing?)
    {
      assert AtEase(s, v);
    }
  }

  /** Exactly which insertions can lead to two workers that sync at once: those with an earlier worker
      that may still sync. The others keep the record with its own worker throughout its life. */
  lemma InsertExact(s: State, u: Update, cacheTerminal: bool)
    requires Wired(s) && s.record.None? && Accepted(u)
    ensures NeverTwo(UpdatePod(s, u, cacheTerminal)) <==> AllAtEase(s, |s.workers|)
  {
    var t := UpdatePod(s, u, cacheTerminal);
    InsertOpens(s, u, cacheTerminal);
    AskWired(s, u, cacheTerminal);
    if AllAtEase(s, |s.workers|) {
      InsertedEase(s, t);
      hide UpdatePod, Wired, LifeFrom, TwoSync, AllAtEase, Open, CanStart;
      forall steps, states, n | LifeFrom(t, steps, states) && 0 <= n < |states|
        ensures !TwoSync(states[n])
      {
        LifeEase(t, steps, states, n);
        EaseSyncsAlone(states[n]);
      }
    } else {
      var steps, states := NoisyInsert(s, u, cacheTerminal);
      hide UpdatePod, Wired, LifeFrom, TwoSync, AllAtEase, Open, CanStart;
      EndsInLife(t, steps, states);
    }
  }

  lemma InsertedEase(s: State, t: State)
    requires |s.workers| == |s.channels| && AllAtEase(s, |s.workers|)
    requires t.workers == s.workers + [Waiting] && t.channels == s.channels + [Wakeup(true, true)]
    ensures AllAtEase(t, |t.workers| - 1)
  {
    forall w | 0 <= w < |s.workers|
      ensures AtEase(t, w)
    {
      assert AtEase(s, w);
    }
  }

  /** With an earlier worker that is not at ease, the life of the record can go on to two syncs. */
  lemma NoisyInsert(s: State, u: Update, cacheTerminal: bool) returns (steps: seq<Step>, states: seq<State>)
    requires Wired(s) && s.record.None? && Accepted(u) && !AllAtEase(s, |s.workers|)
    ensures LifeFrom(UpdatePod(s, u, cacheTerminal), steps, states) && TwoSync(states[|steps|])
  {
    var t, c := UpdatePod(s, u, cacheTerminal), |s.workers|;
    InsertOpens(s, u, cacheTerminal);
    assert |s.channels| == |s.workers|;
    var v :| 0 <= v < |s.workers| && !AtEase(s, v);
    assert t.workers[v] == s.workers[v] && t.channels[v] == s.channels[v];
    hide Apply, Enabled, UpdatePod, Wired, LifeFrom, AllAtEase, CanStart;
    var mid;
    steps, states, mid := FirstSync(t, c, v);
    var steps2, states2 := SyncOf(mid, c, c);
    LifeJoins(t, steps, states, steps2, states2);
    assert states2[|steps2|].workers[v].Syncing? && states2[|steps2|].workers[c].Syncing?;
    steps, states := steps + steps2, states + states2[1..];
  }

  /** Brings an earlier worker that is not at ease to a sync, and queues another update. */
  lemma FirstSync(t: State, c: nat, v: nat) returns (steps: seq<Step>, states: seq<State>, mid: State)
    requires Open(t, c) && CanStart(t.record.value) && v < c && !AtEase(t, v) && t.workers[c].Waiting? && t.channels[c].token
    ensures LifeFrom(t, steps, states) && mid == states[|steps|]
    ensures Open(mid, c) && CanStart(mid.record.value) && |mid.workers| == |t.workers|
    ensures mid.workers[v].Syncing? && mid.workers[c].Waiting? && mid.channels[c].token
  {
    if t.workers[v].Syncing? {
      steps, states, mid := [], [t], t;
    } else if t.workers[v].Completing? {
      FinishReady(t, c, v);
      hide Apply, Enabled, CanStart, LifeFrom;
      var ready := Apply(t, Finish(v));
      OneStep(t, Finish(v));
      var more, after;
      more, after, mid := SyncAndAsk(ready, c, v);
      LifeJoins(t, [Finish(v)], [t, ready], more, after);
      steps, states := [Finish(v)] + more, [t, ready] + after[1..];
    } else {
      steps, states, mid := SyncAndAsk(t, c, v);
    }
  }

  lemma FinishReady(t: State, c: nat, v: nat)
    requires Open(t, c) && CanStart(t.record.value) && v < c && t.workers[v].Completing? && t.channels[v].token
    ensures Enabled(t, Finish(v))
    ensures var ready := Apply(t, Finish(v));
            && Open(ready, c) && ready.record == t.record && ready.workers == t.workers[v := Waiting]
            && ready.channels == t.channels[c := t.channels[c].(token := true)]
  {
  }

  lemma SyncAndAsk(t: State, c: nat, v: nat) returns (steps: seq<Step>, states: seq<State>, mid: State)
    requires Open(t, c) && CanStart(t.record.value) && v < c && t.workers[c].Waiting?
    requires t.workers[v].Woken? || (t.workers[v].Waiting? && t.channels[v].token)
    ensures LifeFrom(t, steps, states) && mid == states[|steps|]
    ensures Open(mid, c) && CanStart(mid.record.value) && |mid.workers| == |t.workers|
    ensures mid.workers[v].Syncing? && mid.workers[c].Waiting? && mid.channels[c].token
  {
    hide Apply, Enabled, CanStart, LifeFrom;
    var steps1, states1 := SyncOf(t, c, v);
    EndsInLife(t, steps1, states1);
    var t1 := states1[|steps1|];
    AskWakes(t1, c);
    OneStep(t1, Ask(PLAIN, false));
    mid := Apply(t1, Ask(PLAIN, false));
    LifeJoins(t, steps1, states1, [Ask(PLAIN, false)], [t1, mid]);
    steps, states := steps1 + [Ask(PLAIN, false)], states1 + [t1, mid][1..];
  }

  // ----- updates behind an open channel -----

  /** An update is pending behind an open channel whose worker will not come to it. */
  predicate Stranded(s: State) {
    s.record.Some? && s.record.value.pending.Some? && s.current.Some?
    && s.current.value < |s.workers| == |s.channels| && s.channels[s.current.value].open
    && !WillServe(s.workers[s.current.value], s.channels[s.current.value])
  }

  ghost predicate NeverStrands(s: State) {
    forall steps, states, n :: LifeFrom(s, steps, states) && 0 <= n < |states| ==> !Stranded(states[n])
  }

  /** The worker of the record has not left, and will come to a pending update. */
  predicate Served(s: State) {
    && Wired(s)
    && (s.current.Some? ==>
          var c := s.current.value;
          !s.workers[c].Exited? && (s.record.value.pending.Some? ==> WillServe(s.workers[c], s.channels[c])))
  }

  lemma SendServes(s: State, r: Record)
    requires Wired(s) && s.record.Some? && r.finished == s.record.value.finished
    requires s.current.Some? ==> !s.workers[s.current.value].Exited?
    ensures Served(Send(s.(record := Some(r)))) && Send(s.(record := Some(r))).workers == s.workers
    ensures (s.current.Some? && r.pending.Some? ==> WillServe(s.workers[s.current.value], s.channels[s.current.value])) ==>
              Served(s.(record := Some(r)))
  {
  }

  lemma RequeueServes(s: State, r: Record)
    requires Served(s) && s.record.Some? && r.finished == s.record.value.finished && r.pending == s.record.value.pending
    ensures Served(Requeue(s, r)) && Requeue(s, r).workers == s.workers
  {
    SendServes(s, r);
    SendServes(s, r.(pending := r.active, working := true));
    hide Send, ChannelsOk;
  }

  /** The worker that has done its part goes back, or another one moves. */
  lemma MoveServes(s: State, w: nat, phase: Phase)
    requires Served(s) && w < |s.workers|
    requires s.current == Some(w) ==> !phase.Exited? && (phase.Waiting? && s.record.value.pending.Some? ==> s.channels[w].token)
    ensures Served(SetWorker(s, w, phase))
  {
  }

  lemma AskServes(s: State, u: Update, cacheTerminal: bool)
    requires Served(s) && s.record.Some?
    ensures Served(UpdatePod(s, u, cacheTerminal))
  {
    hide React, ChannelsOk, Send;
    if Accepted(u) {
      var isRuntime := u.pod.None?;
      var v := if isRuntime then u else u.(running := false);
      ReactFlags(s.record.value, v, false, isRuntime);
      var reaction := React(s.record.value, v, false, isRuntime);
      SendServes(s, reaction.record);
      if reaction.Enqueue? {
        SendServes(s, reaction.record.(pending := Some(reaction.update), working := true));
        assert OpenChannel(s) == s;
      }
    }
  }

  lemma CompletionsServe(s: State, epoch: nat)
    requires Served(s) && s.record.Some?
    ensures Served(CompleteSync(s)) && CompleteSync(s).workers == s.workers && CompleteSync(s).record.Some?
    ensures Served(CompleteTerminating(s, epoch)) && CompleteTerminating(s, epoch).workers == s.workers
    ensures Served(CompleteTerminated(s)) && CompleteTerminated(s).workers == s.workers && CompleteTerminated(s).current.None?
  {
    CompletionsWired(s, epoch);
    var r := s.record.value;
    RequeueServes(s, r.(terminating := true, marks := r.marks.(startedTerminating := true)));
    RequeueServes(s, r.(terminated := true, story := r.story.(ended := r.story.ended || r.story.epoch == epoch)));
    CompletionFlags(s, epoch);
    hide ChannelsOk, Requeue;
  }

  lemma ReturnServes(s: State, w: nat, failed: bool, terminal: bool)
    requires Served(s) && s.record.Some? && w < |s.workers| && s.workers[w].Syncing?
    requires SyncReturns(s, w, failed, terminal).record.Some?
    ensures Served(SyncReturns(s, w, failed, terminal))
  {
    CompletionsServe(s, s.workers[w].epoch);
    hide Served, CompleteSync, CompleteTerminating, CompleteTerminated;
    MoveServes(s, w, Completing);
    MoveServes(CompleteSync(s), w, Completing);
    MoveServes(CompleteTerminating(s, s.workers[w].epoch), w, Completing);
    MoveServes(CompleteTerminated(s), w, Exited);
  }

  lemma SweepServes(s: State, orphaned: bool)
    requires Served(s) && s.record.Some? && RemoveTerminatedWorker(s, s.record.value, orphaned).record.Some?
    ensures Served(RemoveTerminatedWorker(s, s.record.value, orphaned))
  {
    hide Served, Requeue, Grace;
    var r := s.record.value.(marks := s.record.value.marks.(deleted := true));
    var grace := if r.active.Some? && r.active.value.pod.Some? then Grace(r.gracePeriod, r.active.value.pod, None) else 1;
    RequeueServes(s, r.(terminating := true, gracePeriod := grace));
    RequeueServes(s, r);
  }

  lemma StartServes(s: State, w: nat)
    requires Served(s) && s.record.Some? && w < |s.workers| && (s.record.value.pending.Some? ==> CanStart(s.record.value))
    ensures Served(StartPodSync(s, w))
  {
    StartWired(s, w);
    SendRecord(s);
    hide ChannelsOk, MergeLastUpdate;
  }

  lemma FinishServes(s: State, w: nat)
    requires Served(s) && s.record.Some? && w < |s.workers|
    ensures Served(CompleteWork(s, w))
  {
    var r := s.record.value;
    SendServes(s, r);
    SendServes(s, r.(working := false));
    assert s.(record := Some(r)) == s;
    if r.pending.Some? {
      SentToken(s);
      hide Served, Send;
      MoveServes(Send(s), w, Waiting);
    } else {
      MoveServes(s.(record := Some(r.(working := false))), w, Waiting);
    }
  }

  lemma SentToken(s: State)
    requires ChannelsOk(s)
    ensures |Send(s).channels| == |s.channels| && Send(s).current == s.current && Send(s).record == s.record
    ensures s.current.Some? ==> Send(s).channels[s.current.value].token
  {
  }

  lemma ServedStep(s: State, step: Step)
    requires Served(s) && LifeStep(s, step) && (s.record.value.pending.Some? ==> CanStart(s.record.value))
    ensures Served(Apply(s, step))
  {
    hide CanStart;
    match step {
      case Ask(u, cacheTerminal) => AskServes(s, u, cacheTerminal);
      case Return(w, failed, terminal) => ReturnServes(s, w, failed, terminal);
      case Sweep(orphaned) => SweepServes(s, orphaned);
      case Start(w) => StartServes(s, w);
      case Finish(w) => FinishServes(s, w);
      case _ =>
    }
  }

  // A record whose first update carries a pod knows one ever after, and can always be started.

  predicate Carries(u: Option<Update>) {
    u.Some? ==> u.value.pod.Some? && !u.value.running
  }

  predicate PodKnown(r: Record) {
    Carries(r.pending) && Carries(r.active) && (r.pending.Some? || r.active.Some?)
  }

  // A record that nothing but a pod of its own can end: until it is started it runs alone.

  /** What a record is asked without a pod is to terminate what runs. */
  predicate RunsAlone(r: Record, u: Option<Update>) {
    u.Some? ==> if u.value.pod.Some? then u.value.running ==> r.started else u.value.running && r.terminating
  }

  predicate OwnSync(r: Record, p: Phase) {
    p.Syncing? && p.epoch == r.story.epoch && p.update.pod.Some? && !p.update.running ==> r.started
  }

  predicate EndsItself(s: State) {
    s.record.Some? ==>
      var r := s.record.value;
      && NoForeign(s, r.story.epoch)
      && (r.terminated ==> r.started)
      && RunsAlone(r, r.pending) && RunsAlone(r, r.active) && (r.active.Some? && r.active.value.pod.Some? ==> r.started)
      && forall w :: 0 <= w < |s.workers| ==> OwnSync(r, s.workers[w])
  }

  /** What a step leaves in the queue of a record. */
  predicate QueueMoves(s: State, step: Step, was: Record, now: Record) {
    || (now.pending == was.pending && now.active == was.active)
    || (was.pending.None? && now.pending == was.active && now.active == was.active)
    || (step.Start? && was.pending.Some? && now == HandedOut(was, was.pending.value))
    || (step.Ask? && now.active == was.active && now.pending.Some? &&
        if now.pending.value.pod.Some? then !now.pending.value.running
        else now.pending.value.running && now.terminating && PodOf(was, step.update, true).None?)
  }

  lemma ReactQueues(r: Record, u: Update, isRuntime: bool)
    requires if isRuntime then u.pod.None? && u.running else u.pod.Some? && !u.running
    ensures var reaction := React(r, u, false, isRuntime);
            reaction.Enqueue? ==>
              if reaction.update.pod.Some? then !reaction.update.running
              else reaction.update.running && reaction.record.terminating && PodOf(r, u, true).None?
  {
    hide Grace;
  }

  lemma AskQueues(s: State, u: Update, cacheTerminal: bool)
    requires s.record.Some?
    ensures var t := UpdatePod(s, u, cacheTerminal);
            t.record.Some? && QueueMoves(s, Ask(u, cacheTerminal), s.record.value, t.record.value)
  {
    hide React, Queue, PodOf, HandedOut;
    if Accepted(u) {
      var isRuntime := u.pod.None?;
      var v := if isRuntime then u else u.(running := false);
      ReactFlags(s.record.value, v, false, isRuntime);
      ReactQueues(s.record.value, v, isRuntime);
      var reaction := React(s.record.value, v, false, isRuntime);
      PodOfSame(s.record.value, u, v);
      if reaction.Enqueue? {
        QueueFlags(s, reaction.record, reaction.update);
      }
    }
  }

  lemma PodOfSame(r: Record, u: Update, v: Update)
    ensures PodOf(r, u, true) == PodOf(r, v, true)
  {
  }

  lemma StepQueues(s: State, step: Step)
    requires LifeStep(s, step)
    ensures QueueMoves(s, step, s.record.value, Apply(s, step).record.value)
  {
    hide HandedOut, PodOf;
    match step {
      case Ask(u, cacheTerminal) => AskQueues(s, u, cacheTerminal);
      case Return(w, failed, terminal) => ReturnQueues(s, w, failed, terminal);
      case Sweep(orphaned) => SweepQueues(s, orphaned);
      case Start(w) => SendRecord(s);
      case Finish(w) => SendRecord(s);
      case _ =>
    }
  }

  lemma ReturnQueues(s: State, w: nat, failed: bool, terminal: bool)
    requires s.record.Some? && w < |s.workers| && s.workers[w].Syncing? && SyncReturns(s, w, failed, terminal).record.Some?
    ensures QueueMoves(s, Return(w, failed, terminal), s.record.value, SyncReturns(s, w, failed, terminal).record.value)
  {
    hide Requeue, CleanUp, HandedOut, PodOf;
    var r := s.record.value;
    RequeueFlags(s, r.(terminating := true, marks := r.marks.(startedTerminating := true)));
    RequeueFlags(s, r.(terminated := true, story := r.story.(ended := r.story.ended || r.story.epoch == s.workers[w].epoch)));
  }

  lemma SweepQueues(s: State, orphaned: bool)
    requires s.record.Some? && RemoveTerminatedWorker(s, s.record.value, orphaned).record.Some?
    ensures QueueMoves(s, Sweep(orphaned), s.record.value, RemoveTerminatedWorker(s, s.record.value, orphaned).record.value)
  {
    hide Requeue, CleanUp, Grace, HandedOut, PodOf;
    var r := s.record.value.(marks := s.record.value.marks.(deleted := true));
    var grace := if r.active.Some? && r.active.value.pod.Some? then Grace(r.gracePeriod, r.active.value.pod, None) else 1;
    RequeueFlags(s, r.(terminating := true, gracePeriod := grace));
    RequeueFlags(s, r);
  }

  lemma KnownStep(s: State, step: Step)
    requires LifeStep(s, step) && PodKnown(s.record.value)
    ensures PodKnown(Apply(s, step).record.value)
  {
    StepQueues(s, step);
    hide LifeStep, Apply, Enabled;
    KnownMoves(s, step, s.record.value, Apply(s, step).record.value);
  }

  lemma KnownMoves(s: State, step: Step, was: Record, now: Record)
    requires PodKnown(was) && QueueMoves(s, step, was, now)
    ensures PodKnown(now)
  {
    if was.pending.Some? {
      HandedKnown(was);
    }
    hide HandedOut;
    if was.pending.Some? && now == HandedOut(was, was.pending.value) {
    } else if step.Ask? && now.pending.Some? && now.pending.value.pod.None? {
      KnownPodOf(was, step.update);
    }
  }

  lemma HandedKnown(r: Record)
    requires PodKnown(r) && r.pending.Some?
    ensures PodKnown(HandedOut(r, r.pending.value))
  {
    hide WorkOf;
  }

  lemma KnownPodOf(r: Record, u: Update)
    requires PodKnown(r)
    ensures PodOf(r, u, true).Some?
  {
  }

  lemma EndsItselfStep(s: State, step: Step)
    requires LifeStep(s, step) && EndsItself(s)
    ensures EndsItself(Apply(s, step))
  {
    StepQueues(s, step);
    StepFlags(s, step);
    StepSyncs(s, step);
    ForeignStays(s, step);
    hide Apply, Enabled, NoForeign;
    var r, t := s.record.value, Apply(s, step);
    if EndsSync(s, step) {
      HomeSync(s, step.w, r.story.epoch);
      assert OwnSync(r, s.workers[step.w]);
    }
    forall w | 0 <= w < |t.workers|
      ensures OwnSync(t.record.value, t.workers[w])
    {
      assert w < |s.workers| ==> OwnSync(r, s.workers[w]);
    }
  }

  /** A record on which a worker can always start. */
  predicate Sustained(s: State) {
    s.record.Some? ==> PodKnown(s.record.value) || EndsItself(s)
  }

  lemma SustainedStarts(s: State)
    requires Sustained(s) && s.record.Some? && s.record.value.pending.Some?
    ensures CanStart(s.record.value)
  {
  }

  lemma SustainedStep(s: State, step: Step)
    requires LifeStep(s, step) && Sustained(s) && Served(s)
    ensures Sustained(Apply(s, step)) && Served(Apply(s, step))
  {
    hide Apply, Enabled, PodKnown, EndsItself, Served, CanStart;
    if s.record.value.pending.Some? {
      SustainedStarts(s);
    }
    ServedStep(s, step);
    if PodKnown(s.record.value) {
      KnownStep(s, step);
    } else {
      EndsItselfStep(s, step);
    }
  }

  lemma ServedNotStranded(s: State)
    requires Served(s)
    ensures !Stranded(s)
  {
  }

  lemma LifeStepAt(s: State, steps: seq<Step>, states: seq<State>, n: nat)
    requires LifeFrom(s, steps, states) && 0 < n < |states|
    ensures LifeStep(states[n - 1], steps[n - 1]) && states[n] == Apply(states[n - 1], steps[n - 1])
  {
    hide Enabled, Apply;
    assert states[n - 1].record.Some? && states[n].record.Some?;
  }

  lemma {:induction false} LifeServed(s: State, steps: seq<Step>, states: seq<State>, n: nat)
    requires LifeFrom(s, steps, states) && n < |states| && Sustained(s) && Served(s)
    ensures Sustained(states[n]) && Served(states[n])
  {
    hide Apply, Enabled, Sustained, Served;
    if n > 0 {
      LifeServed(s, steps, states, n - 1);
      LifeStepAt(s, steps, states, n);
      SustainedStep(states[n - 1], steps[n - 1]);
    }
  }

  lemma InsertedServed(s: State, u: Update, cacheTerminal: bool)
    requires Wired(s) && Dated(s) && s.record.None? && Accepted(u) && (u.pod.Some? || NoForeign(s, s.epochs))
    ensures Served(UpdatePod(s, u, cacheTerminal)) && Sustained(UpdatePod(s, u, cacheTerminal))
  {
    InsertOpens(s, u, cacheTerminal);
    FirstPending(s, u, cacheTerminal);
    AskWired(s, u, cacheTerminal);
    hide UpdatePod, CanStart;
    if u.pod.None? {
      OldSyncs(s, UpdatePod(s, u, cacheTerminal));
    }
  }

  lemma OldSyncs(s: State, t: State)
    requires NoForeign(s, s.epochs) && t.workers == s.workers + [Waiting] && t.record.Some?
    requires t.record.value.story == Story(s.epochs, false, false, []) && !t.record.value.terminated && t.record.value.active.None?
    requires t.record.value.pending.Some? && RunsAlone(t.record.value, t.record.value.pending)
    requires Dated(s)
    ensures EndsItself(t)
  {
  }

  /** Exactly which insertions can strand an update: those of a record that runs alone, without a pod,
      while a worker still syncs the end of another one. */
  lemma StrandsExactly(s: State, u: Update, cacheTerminal: bool)
    requires Wired(s) && Dated(s) && s.record.None? && Accepted(u)
    ensures NeverStrands(UpdatePod(s, u, cacheTerminal)) <==> u.pod.Some? || NoForeign(s, s.epochs)
  {
    var t := UpdatePod(s, u, cacheTerminal);
    hide UpdatePod, Wired, Dated, LifeFrom, Stranded, Served, Sustained;
    if u.pod.Some? || NoForeign(s, s.epochs) {
      InsertedServed(s, u, cacheTerminal);
      forall steps, states, n | LifeFrom(t, steps, states) && 0 <= n < |states|
        ensures !Stranded(states[n])
      {
        LifeServed(t, steps, states, n);
        ServedNotStranded(states[n]);
      }
    } else {
      var v :| 0 <= v < |s.workers| && Foreign(s.workers[v], s.epochs);
      var steps, states := ForeignSyncStrands(s, u, cacheTerminal, v);
      EndsInLife(t, steps, states);
    }
  }

  /** Its own worker then leaves, and the next update finds nobody. */
  lemma ForeignSyncStrands(s: State, u: Update, cacheTerminal: bool, v: nat) returns (steps: seq<Step>, states: seq<State>)
    requires Wired(s) && s.record.None? && Accepted(u) && u.pod.None?
    requires v < |s.workers| && Foreign(s.workers[v], s.epochs)
    ensures LifeFrom(UpdatePod(s, u, cacheTerminal), steps, states) && Stranded(states[|steps|])
  {
    var t, k := UpdatePod(s, u, cacheTerminal), |s.workers|;
    AskWired(s, u, cacheTerminal);
    InsertOpens(s, u, cacheTerminal);
    hide Apply, Enabled, UpdatePod, Wired, LifeFrom, Premature, CanStart, Stranded;
    var steps1, states1 := ForeignSyncEnds(s, u, cacheTerminal, v);
    EndsInLife(t, steps1, states1);
    var t1 := states1[|steps1|];
    LifeWired(t, steps1, states1, |steps1|);
    AskWakes(t1, k);
    OneStep(t1, Ask(PLAIN, false));
    var t2 := Apply(t1, Ask(PLAIN, false));
    LifeJoins(t, steps1, states1, [Ask(PLAIN, false)], [t1, t2]);
    StepWired(t1, Ask(PLAIN, false));
    LeftStrands(t2, k);
    steps, states := steps1 + [Ask(PLAIN, false)], states1 + [t1, t2][1..];
  }

  lemma LeftStrands(t: State, k: nat)
    requires Wired(t) && Open(t, k) && t.record.value.pending.Some? && k < |t.workers| && t.workers[k].Exited?
    ensures Stranded(t)
  {
  }

  // ----- whole runs -----

  lemma StaysWithout(s: State, step: Step)
    requires Enabled(s, step) && s.record.None? && !Inserts(s, step)
    ensures Apply(s, step).record.None?
  {
    SendRecord(s);
  }

  /** In every run in which a record that is not born terminated is inserted only while no worker syncs
      the end of another one, TerminatedPod is never handed out before its time. */
  lemma {:induction false} NeverPrematureAlways(steps: seq<Step>, states: seq<State>, n: nat)
    requires Run(steps, states) && n <= |steps|
    requires forall i :: 0 <= i < |steps| && Inserts(states[i], steps[i]) ==>
                           Born(steps[i].update, steps[i].cacheTerminal) || NoForeign(states[i], states[i].epochs)
    ensures !Premature(states[n]) && Timely(states[n])
  {
    hide Apply, Enabled, NoForeign, Wired, Sane, Born;
    if n == 0 {
    } else {
      NeverPrematureAlways(steps, states, n - 1);
      RunsKeepWired(steps, states, n - 1);
      assert Enabled(states[n - 1], steps[n - 1]) && states[n] == Apply(states[n - 1], steps[n - 1]);
      TimelyStep(states[n - 1], steps[n - 1]);
    }
    TimelyMeans(states[n]);
  }

  predicate Timely(s: State) {
    s.record.Some? ==> s.record.value.story.born || Sane(s)
  }

  lemma TimelyMeans(s: State)
    requires Timely(s)
    ensures !Premature(s)
  {
  }

  lemma TimelyStep(s: State, step: Step)
    requires Wired(s) && Enabled(s, step) && Timely(s)
    requires Inserts(s, step) ==> Born(step.update, step.cacheTerminal) || NoForeign(s, s.epochs)
    ensures Timely(Apply(s, step))
  {
    hide Apply, Enabled, NoForeign, Sane, Wired, Born;
    if Inserts(s, step) {
      AskIs(s, step);
      InsertOpens(s, step.update, step.cacheTerminal);
      hide UpdatePod, CanStart, Open;
      if !Born(step.update, step.cacheTerminal) {
        InsertedSane(s, Apply(s, step));
      }
    } else if s.record.None? {
      StaysWithout(s, step);
    } else if Apply(s, step).record.Some? {
      StepFlags(s, step);
      if !s.record.value.story.born {
        SaneStep(s, step);
      }
    }
  }

  lemma AskIs(s: State, step: Step)
    requires step.Ask? && Enabled(s, step)
    ensures Apply(s, step) == UpdatePod(s, step.update, step.cacheTerminal)
  {
  }

  /** In every run in which a record without a pod is inserted only while no worker syncs the end of
      another one, no update is ever stranded. */
  lemma {:induction false} NeverStrandedAlways(steps: seq<Step>, states: seq<State>, n: nat)
    requires Run(steps, states) && n <= |steps|
    requires forall i :: 0 <= i < |steps| && Inserts(states[i], steps[i]) ==>
                           steps[i].update.pod.Some? || NoForeign(states[i], states[i].epochs)
    ensures !Stranded(states[n]) && Served(states[n]) && Sustained(states[n])
  {
    hide Apply, Enabled, NoForeign, Sustained, Stranded, Dated;
    if n == 0 {
      NothingYet();
    } else {
      hide Served;
      NeverStrandedAlways(steps, states, n - 1);
      RunsKeepDated(steps, states, n - 1);
      assert Enabled(states[n - 1], steps[n - 1]) && states[n] == Apply(states[n - 1], steps[n - 1]);
      ServedOn(states[n - 1], steps[n - 1]);
    }
    ServedNotStranded(states[n]);
  }

  lemma NothingYet()
    ensures Served(EMPTY) && Sustained(EMPTY)
  {
  }

  lemma ServedOn(s: State, step: Step)
    requires Served(s) && Sustained(s) && Dated(s) && Enabled(s, step)
    requires Inserts(s, step) ==> step.update.pod.Some? || NoForeign(s, s.epochs)
    ensures Served(Apply(s, step)) && Sustained(Apply(s, step))
  {
    assert Wired(s);
    hide Apply, Enabled, NoForeign, Sustained, Served, Wired, Dated;
    if Inserts(s, step) {
      AskIs(s, step);
      InsertedServed(s, step.update, step.cacheTerminal);
    } else if s.record.None? {
      StaysWithout(s, step);
      StepWired(s, step);
      WithoutRecord(Apply(s, step));
    } else if Apply(s, step).record.Some? {
      SustainedStep(s, step);
    } else {
      StepWired(s, step);
      WithoutRecord(Apply(s, step));
    }
  }

  lemma WithoutRecord(s: State)
    requires Wired(s) && s.record.None?
    ensures Served(s) && Sustained(s)
  {
  }

  /** In every run in which records are inserted only when all earlier workers are at ease, no two
      workers ever sync at once. */
  lemma {:induction false} NeverTwoAlways(steps: seq<Step>, states: seq<State>, n: nat)
    requires Run(steps, states) && n <= |steps|
    requires forall i :: 0 <= i < |steps| && Inserts(states[i], steps[i]) && |states[i].workers| == |states[i].channels| ==>
                           AllAtEase(states[i], |states[i].workers|)
    ensures Eased(states[n]) && !TwoSync(states[n])
  {
    hide Apply, Enabled, AllAtEase;
    RunsKeepWired(steps, states, n);
    if n > 0 {
      NeverTwoAlways(steps, states, n - 1);
      RunsKeepWired(steps, states, n - 1);
      EasedStep(states[n - 1], steps[n - 1]);
    }
    if |states[n].workers| > 0 {
      EaseSyncsAlone(states[n]);
    }
  }

  predicate Eased(s: State) {
    |s.workers| == |s.channels| && (|s.workers| > 0 ==> AllAtEase(s, |s.workers| - 1))
  }

  lemma EasedStep(s: State, step: Step)
    requires Wired(s) && Enabled(s, step) && Eased(s)
    requires Inserts(s, step) ==> AllAtEase(s, |s.workers|)
    ensures Eased(Apply(s, step))
  {
    hide Apply, Enabled, AllAtEase;
    if Inserts(s, step) {
      AskIs(s, step);
      InsertOpens(s, step.update, step.cacheTerminal);
      InsertedEase(s, Apply(s, step));
    } else if |s.workers| > 0 {
      EaseStep(s, step);
    } else {
      StaysEmpty(s, step);
    }
  }

  lemma StaysEmpty(s: State, step: Step)
    requires Wired(s) && Enabled(s, step) && !Inserts(s, step) && |s.workers| == 0
    ensures Eased(Apply(s, step))
  {
    StepWired(s, step);
    if step.Ask? {
      AskTokens(s, step.update, step.cacheTerminal);
    } else if step.Sweep? {
      SweepWorkers(s, step.orphaned);
    }
    hide UpdatePod, RemoveTerminatedWorker;
  }
}
