/** What an update does to the record of a pod, told by what the update carries and by the flags of the
    record before and after. */
module PodWorkerUpdates {
  import opened Options
  import opened PodWorkers

  /** The marks of a record that nothing asked to terminate before, by what the update carries: it
      terminates if the update is runtime-only, its pod is deleted, its pod has ended, or it is a kill.
      It is newly deleted in the first two cases, and newly evicted if only a kill asks, to evict. */
  predicate Begins(deleted: bool, evicted: bool, now: Record, u: Update) {
    && (now.terminating <==> u.pod.None? || u.pod.value.deleting || u.pod.value.ended || u.kind.KillUpdate?)
    && (now.marks.deleted <==> deleted || u.pod.None? || u.pod.value.deleting)
    && (now.marks.evicted <==> evicted || (u.pod.Some? && !u.pod.value.deleting && !u.pod.value.ended
                                           && u.kind.KillUpdate? && u.kill.Some? && u.kill.value.evict))
  }

  /** The update that is left pending: about the update's own pod, or the one it borrows, with a kill
      request exactly while the pod terminates, whose grace period is the one that the record has. */
  predicate Pends(now: Record, u: Update, borrowed: Option<Pod>, gracePeriod: int) {
    now.working && now.pending.Some? &&
    var p := now.pending.value;
    && p.kind == u.kind && p.pod == (if u.pod.Some? then u.pod else borrowed) && (p.running <==> p.pod.None?)
    && if now.terminating && !now.terminated then
         && now.gracePeriod == Grace(gracePeriod, p.pod, u.kill)
         && p.kill == Some(Kill(u.kill.Some? && u.kill.value.evict, Some(now.gracePeriod)))
       else p.kill == None && now.gracePeriod == gracePeriod
  }

  /** The record's channel, or a new one that a new worker serves, holds a token. */
  predicate Wakes(s: State, next: State) {
    && next.current.Some?
    && (if s.current.Some? then next.current == s.current && next.workers == s.workers && |next.channels| == |s.channels|
        else next.current.value == |s.channels| && next.workers == s.workers + [Waiting] && |next.channels| == |s.channels| + 1)
    && (next.current.value < |next.channels| ==> next.channels[next.current.value].token)
  }

  /** A record that an update inserts: already terminated if its pod has ended and the runtime has
      nothing of it. */
  predicate FirstMeans(epoch: nat, now: Record, u: Update, cacheTerminal: bool) {
    && (if u.pod.Some? && u.pod.value.ended && cacheTerminal
        then now.terminating && now.terminated && now.marks == Marks(true, false, false, false)
        else Begins(false, false, now, u) && !now.terminated && !now.marks.startedTerminating && !now.marks.restartRequested)
    && !now.started && !now.finished && now.active.None? && (now.observedRuntime <==> u.pod.None?)
    && now.story.epoch == epoch && now.story.handed == []
    && Pends(now, u, None, 0)
  }

  predicate AsksRestart(was: Record, u: Update) {
    was.terminating && u.kind.CreateUpdate?
  }

  function Borrowed(was: Record): (pod: Option<Pod>)
    ensures was.pending.Some? && was.pending.value.pod.Some? ==> pod == was.pending.value.pod
    ensures (was.pending.None? || was.pending.value.pod.None?) && was.active.Some? ==> pod == was.active.value.pod
  {
    if was.pending.Some? && was.pending.value.pod.Some? then was.pending.value.pod
    else if was.active.Some? then was.active.value.pod else None
  }

  /** Another update: only noted if the pod is to start again while it terminates; ignored once the pod
      is finished, or terminated if the update is runtime-only; pending otherwise. */
  predicate AgainMeans(s: State, next: State, was: Record, now: Record, u: Update) {
    var runtime := was.observedRuntime || u.pod.None?;
    if AsksRestart(was, u) then next == s.(record := Some(was.(observedRuntime := runtime, marks := was.marks.(restartRequested := true))))
    else if was.finished then next == s.(record := Some(was.(observedRuntime := runtime)))
    else
      && Moves(was, now, u) && now.observedRuntime == runtime
      && if was.terminated && u.pod.None? then now.pending == was.pending && next == s.(record := Some(now))
         else Pends(now, u, Borrowed(was), was.gracePeriod) && Wakes(s, next)
  }

  /** The flags and marks after an update that is not ignored. */
  predicate Moves(was: Record, now: Record, u: Update) {
    && (if was.terminating then now.terminating && now.marks == was.marks
        else Begins(was.marks.deleted, was.marks.evicted, now, u))
    && now.marks.restartRequested == was.marks.restartRequested && now.marks.startedTerminating == was.marks.startedTerminating
    && now.terminated == was.terminated && !now.finished && now.started == was.started
    && now.active == was.active && now.story == was.story
  }

  predicate UpdateMeans(s: State, next: State, u: Update, cacheTerminal: bool) {
    if u.pod.None? && !(u.running && u.kind.KillUpdate?) then next == s
    else
      next.record.Some? &&
      if s.record.None? then next.epochs == s.epochs + 1 && FirstMeans(s.epochs, next.record.value, u, cacheTerminal) && Wakes(s, next)
      else next.epochs == s.epochs && AgainMeans(s, next, s.record.value, next.record.value, u)
  }

  lemma ReactionMeans(t: Record, u: Update, pod: Option<Pod>, isRuntime: bool)
    ensures var reaction := ReactTerminating(t, u, pod, isRuntime);
            && reaction.record == t.(gracePeriod := reaction.record.gracePeriod)
            && (reaction.Ignore? <==> t.terminated && isRuntime)
            && (reaction.Ignore? ==> reaction.record == t)
            && (reaction.Enqueue? ==>
                  && reaction.update == u.(kill := reaction.update.kill)
                  && if t.terminating && !t.terminated then
                       && reaction.record.gracePeriod == Grace(t.gracePeriod, pod, u.kill)
                       && reaction.update.kill == Some(Kill(u.kill.Some? && u.kill.value.evict, Some(reaction.record.gracePeriod)))
                     else reaction.update.kill == None && reaction.record.gracePeriod == t.gracePeriod)
  {
    hide Grace;
    if !t.terminated && t.terminating {
      NoKillAsksNothing(t.gracePeriod, pod);
    }
  }

  lemma NoKillAsksNothing(grace: int, pod: Option<Pod>)
    ensures Grace(grace, pod, Some(NoKill())) == Grace(grace, pod, None)
  {
  }

  lemma QueueMeans(s: State, r: Record, u: Update)
    ensures var next := Queue(s, r, u);
            next.record == Some(r.(pending := Some(u), working := true)) && Wakes(s, next) && next.epochs == s.epochs
  {
  }

  /** The request to end, on a record that none has reached. */
  lemma TerminateMeans(r: Record, u: Update, u1: Update, pod: Option<Pod>)
    requires !r.terminating && (u.pod.Some? ==> pod == u.pod) && u1.kind == u.kind && u1.kill == u.kill
    ensures Begins(r.marks.deleted, r.marks.evicted, Terminate(r, u1, pod, u.pod.None?), u)
  {
    hide Begins, Terminate;
    if u.pod.None? || u.pod.value.deleting {
      EndsDeleted(r, u1, pod, u.pod.None?);
    } else if u.pod.value.ended || !u.kind.KillUpdate? {
      EndsUnmarked(r, u1, pod);
    } else {
      EndsKilled(r, u1, pod);
    }
    var t := Terminate(r, u1, pod, u.pod.None?);
    BeginsIf(r.marks.deleted, r.marks.evicted, t, u, u.pod.None? || u.pod.value.deleting,
             u.pod.Some? && !u.pod.value.deleting && !u.pod.value.ended && u.kind.KillUpdate? && u.kill.Some? && u.kill.value.evict);
  }

  lemma EndsDeleted(r: Record, u: Update, pod: Option<Pod>, isRuntime: bool)
    requires !r.terminating && (isRuntime || (pod.Some? && pod.value.deleting))
    ensures Terminate(r, u, pod, isRuntime) == r.(terminating := true, marks := r.marks.(deleted := true))
  {
  }

  lemma EndsUnmarked(r: Record, u: Update, pod: Option<Pod>)
    requires !r.terminating && pod.Some? && !pod.value.deleting && (pod.value.ended || !u.kind.KillUpdate?)
    ensures Terminate(r, u, pod, false) == r.(terminating := pod.value.ended)
  {
  }

  lemma EndsKilled(r: Record, u: Update, pod: Option<Pod>)
    requires !r.terminating && pod.Some? && !pod.value.deleting && !pod.value.ended && u.kind.KillUpdate?
    ensures Terminate(r, u, pod, false) == r.(terminating := true, marks := r.marks.(evicted := r.marks.evicted || (u.kill.Some? && u.kill.value.evict)))
  {
  }

  lemma BeginsIf(deleted: bool, evicted: bool, now: Record, u: Update, newlyDeleted: bool, newlyEvicted: bool)
    requires now.terminating <==> u.pod.None? || u.pod.value.deleting || u.pod.value.ended || u.kind.KillUpdate?
    requires newlyDeleted <==> u.pod.None? || u.pod.value.deleting
    requires newlyEvicted <==> u.pod.Some? && !u.pod.value.deleting && !u.pod.value.ended && u.kind.KillUpdate? && u.kill.Some? && u.kill.value.evict
    requires now.marks.deleted == (deleted || newlyDeleted) && now.marks.evicted == (evicted || newlyEvicted)
    ensures Begins(deleted, evicted, now, u)
  {
  }

  lemma TerminateLeaves(r: Record, u: Update, pod: Option<Pod>, isRuntime: bool)
    ensures var t := Terminate(r, u, pod, isRuntime);
            && t == r.(terminating := t.terminating, marks := t.marks)
            && t.marks.startedTerminating == r.marks.startedTerminating && t.marks.restartRequested == r.marks.restartRequested
            && (r.terminating ==> t == r)
  {
    if r.terminating || !AsksToTerminate(u, pod, isRuntime) {
    } else if isRuntime || (pod.Some? && pod.value.deleting) {
    } else if pod.Some? && pod.value.ended {
    }
  }

  /** What the reaction to an update leaves of the flags. */
  lemma MovesOn(was: Record, t: Record, now: Record, u: Update, u1: Update, pod: Option<Pod>)
    requires (u.pod.Some? ==> pod == u.pod) && u1.kind == u.kind && u1.kill == u.kill && !was.finished
    requires t == Terminate(was.(observedRuntime := was.observedRuntime || u.pod.None?), u1, pod, u.pod.None?)
    requires now == t.(gracePeriod := now.gracePeriod, pending := now.pending, working := now.working)
    ensures Moves(was, now, u)
  {
    hide Terminate;
    var r := was.(observedRuntime := was.observedRuntime || u.pod.None?);
    TerminateLeaves(r, u1, pod, u.pod.None?);
    if !was.terminating {
      TerminateMeans(r, u, u1, pod);
    }
  }

  lemma FirstAsk(s: State, epoch: nat, u: Update, born: bool, cacheTerminal: bool)
    requires s.record.None? && (u.pod.Some? || (u.running && u.kind.KillUpdate?))
    requires born <==> u.pod.Some? && u.pod.value.ended && cacheTerminal
    ensures var next := UpdateRecord(s, React(Fresh(epoch, born), if u.pod.None? then u else u.(running := false), true, u.pod.None?));
            next.record.Some? && FirstMeans(epoch, next.record.value, u, cacheTerminal) && Wakes(s, next) && next.epochs == s.epochs
  {
    hide Grace, Queue, ReactTerminating, Wakes;
    var isRuntime := u.pod.None?;
    var u1 := if isRuntime then u else u.(running := false);
    var r := if isRuntime then Fresh(epoch, born).(observedRuntime := true) else Fresh(epoch, born);
    var t := Terminate(r, u1, u.pod, isRuntime);
    ReactionMeans(t, u1, u.pod, isRuntime);
    var reaction := ReactTerminating(t, u1, u.pod, isRuntime);
    QueueMeans(s, reaction.record, reaction.update);
  }

  /** The reaction of a record that is neither finished nor asked to start again. */
  lemma ReactMeans(was: Record, u: Update)
    requires !AsksRestart(was, u) && !was.finished
    ensures var isRuntime := u.pod.None?;
            var pod := if isRuntime then Borrowed(was) else u.pod;
            var r := was.(observedRuntime := was.observedRuntime || isRuntime);
            var u1 := u.(pod := pod, running := u.running && pod.None?);
            React(was, if isRuntime then u else u.(running := false), false, isRuntime) == ReactTerminating(Terminate(r, u1, pod, isRuntime), u1, pod, isRuntime)
  {
    hide Terminate, ReactTerminating;
  }

  lemma AskNoted(s: State, u: Update)
    requires s.record.Some? && (u.pod.Some? || (u.running && u.kind.KillUpdate?))
    requires AsksRestart(s.record.value, u) || s.record.value.finished
    ensures var next := UpdateRecord(s, React(s.record.value, if u.pod.None? then u else u.(running := false), false, u.pod.None?));
            next.record.Some? && AgainMeans(s, next, s.record.value, next.record.value, u) && next.epochs == s.epochs
  {
    hide Grace, Queue, ReactTerminating, Wakes, Terminate, Moves, Pends;
  }

  lemma AskProceeds(s: State, u: Update)
    requires s.record.Some? && (u.pod.Some? || (u.running && u.kind.KillUpdate?))
    requires !AsksRestart(s.record.value, u) && !s.record.value.finished
    ensures var next := UpdateRecord(s, React(s.record.value, if u.pod.None? then u else u.(running := false), false, u.pod.None?));
            next.record.Some? && AgainMeans(s, next, s.record.value, next.record.value, u) && next.epochs == s.epochs
  {
    hide Grace, Queue, ReactTerminating, Wakes, Terminate, Moves, React;
    var was, isRuntime := s.record.value, u.pod.None?;
    ReactMeans(was, u);
    var pod := if isRuntime then Borrowed(was) else u.pod;
    var r := was.(observedRuntime := was.observedRuntime || isRuntime);
    var u1 := u.(pod := pod, running := u.running && pod.None?);
    var t := Terminate(r, u1, pod, isRuntime);
    ReactionMeans(t, u1, pod, isRuntime);
    TerminateLeaves(r, u1, pod, isRuntime);
    var reaction := ReactTerminating(t, u1, pod, isRuntime);
    if reaction.Enqueue? {
      QueueMeans(s, reaction.record, reaction.update);
      MovesOn(was, t, reaction.record.(pending := Some(reaction.update), working := true), u, u1, pod);
    } else {
      MovesOn(was, t, t, u, u1, pod);
    }
  }

  lemma AskAgain(s: State, u: Update)
    requires s.record.Some? && (u.pod.Some? || (u.running && u.kind.KillUpdate?))
    ensures var next := UpdateRecord(s, React(s.record.value, if u.pod.None? then u else u.(running := false), false, u.pod.None?));
            next.record.Some? && AgainMeans(s, next, s.record.value, next.record.value, u) && next.epochs == s.epochs
  {
    hide UpdateRecord, React, AgainMeans;
    if AsksRestart(s.record.value, u) || s.record.value.finished {
      AskNoted(s, u);
    } else {
      AskProceeds(s, u);
    }
  }

  /** Every update does exactly this, in every state. */
  lemma UpdateDoes(s: State, u: Update, cacheTerminal: bool)
    ensures UpdateMeans(s, UpdatePod(s, u, cacheTerminal), u, cacheTerminal)
  {
    hide React, UpdateRecord, FirstMeans, AgainMeans, Fresh;
    if u.pod.Some? || (u.running && u.kind.KillUpdate?) {
      if s.record.Some? {
        AskAgain(s, u);
      } else {
        var born := u.pod.Some? && u.pod.value.ended && cacheTerminal;
        FirstAsk(s.(epochs := s.epochs + 1), s.epochs, u, born, cacheTerminal);
      }
    }
  }

  // ----- what a worker is handed, and what its return brings about -----

  /** The update last worked on, for updates without a pod of their own: its pod and kill request stay
      until an update brings others. */
  predicate Remembers(active: Option<Update>, u: Update, now: Option<Update>) {
    && now.Some?
    && now.value.running == u.running
    && now.value.kind == (if active.Some? then active.value.kind else SyncUpdate)
    && now.value.pod == (if u.running && active.Some? && active.value.pod.Some? then active.value.pod else u.pod)
    && now.value.kill == (if u.kill.None? && active.Some? then active.value.kill else u.kill)
  }

  /** What a worker that takes the pending update is handed: a full sync, the termination or the clean-up,
      by how far the pod has come. It leaves if the pod cannot be started without its specification. */
  predicate HandsOut(s: State, next: State, w: nat, r: Record, now: Record, u: Update)
    requires w < |s.workers| == |next.workers|
  {
    var work := if r.terminated then TerminatedPod else if r.terminating then TerminatingPod else SyncPod;
    var runtimeOnly := u.running && work == TerminatingPod;
    && next.workers[w] == (if r.started || u.pod.Some? || runtimeOnly then Syncing(work, u, r.story.epoch) else Exited)
    && (now.started <==> r.started || (u.pod.Some? && !runtimeOnly))
    && now.pending.None? && Remembers(r.active, u, now.active)
    && now.story == r.story.(handed := r.story.handed + [work])
    && now == r.(pending := now.pending, active := now.active, story := now.story, started := now.started)
  }

  predicate TokenTaken(s: State, next: State) {
    && next.current == s.current && |next.channels| == |s.channels|
    && forall i :: 0 <= i < |s.channels| ==> next.channels[i] == if s.current == Some(i) then s.channels[i].(token := false) else s.channels[i]
  }

  lemma StartDoes(s: State, w: nat)
    requires w < |s.workers|
    ensures var next := StartPodSync(s, w);
            && next.epochs == s.epochs && |next.workers| == |s.workers| && next.workers == s.workers[w := next.workers[w]]
            && if s.record.None? then next.workers[w] == Waiting && next.record.None? && next.channels == s.channels && next.current == s.current
               else if s.record.value.pending.None? then
                 && next.workers[w] == Waiting && next.record == Some(s.record.value.(working := false))
                 && next.channels == s.channels && next.current == s.current
               else
                 && next.record.Some? && TokenTaken(s, next)
                 && HandsOut(s, next, w, s.record.value, next.record.value, s.record.value.pending.value)
  {
    SendRecord(s);
  }

  /** The last update is pending again, unless another one is, and the record's channel wakes its worker. */
  predicate AskedAgain(s: State, next: State, r: Record) {
    && next.current == s.current && next.workers == s.workers && next.epochs == s.epochs
    && if r.pending.Some? || r.active.None? then next.record == Some(r) && next.channels == s.channels
       else
         && next.record == Some(r.(pending := r.active, working := true)) && |next.channels| == |s.channels|
         && forall i :: 0 <= i < |s.channels| ==> next.channels[i] == if s.current == Some(i) then s.channels[i].(token := true) else s.channels[i]
  }

  lemma RequeueDoes(s: State, r: Record)
    ensures AskedAgain(s, Requeue(s, r), r)
  {
  }

  predicate ChannelClosed(s: State, next: State) {
    && next.workers == s.workers && next.epochs == s.epochs && |next.channels| == |s.channels|
    && (s.current.Some? && s.current.value < |s.channels| ==> next.current.None?)
    && forall i :: 0 <= i < |s.channels| ==> next.channels[i] == if s.current == Some(i) then s.channels[i].(open := false) else s.channels[i]
  }

  /** What a sync brings about when it returns: nothing after an error, or when the pod goes on; a full
      sync of a pod that has ended asks for its termination; a termination asks for the clean-up, or ends
      the record of a pod that only the runtime knows; the clean-up finishes the record. */
  lemma ReturnDoes(s: State, w: nat, failed: bool, terminal: bool)
    requires w < |s.workers| && s.workers[w].Syncing?
    ensures var Syncing(work, u, epoch) := s.workers[w];
            var next := SyncReturns(s, w, failed, terminal);
            var leaves := !failed && (work.TerminatedPod? || (work.TerminatingPod? && u.running));
            var before := next.(workers := s.workers);
            && next.workers == s.workers[w := if leaves then Exited else Completing]
            && if failed || (work.SyncPod? && !terminal) then before == s
               else match work
                    case SyncPod =>
                      if s.record.None? then before == s
                      else AskedAgain(s, before, s.record.value.(terminating := true, marks := s.record.value.marks.(startedTerminating := true)))
                    case TerminatingPod =>
                      if u.running then before.record.None? && ChannelClosed(s, before)
                      else if s.record.None? then before == s
                      else AskedAgain(s, before, s.record.value.(terminated := true,
                             story := s.record.value.story.(ended := s.record.value.story.ended || s.record.value.story.epoch == epoch)))
                    case TerminatedPod =>
                      && ChannelClosed(s, before)
                      && before.record == if s.record.None? then None else Some(s.record.value.(finished := true, working := false))
  {
    hide Requeue;
    if s.record.Some? {
      var r := s.record.value;
      RequeueDoes(s, r.(terminating := true, marks := r.marks.(startedTerminating := true)));
      RequeueDoes(s, r.(terminated := true, story := r.story.(ended := r.story.ended || r.story.epoch == s.workers[w].epoch)));
    }
    hide AskedAgain;
  }

  /** What the sweep does to a record: a finished one goes, as does an orphaned one of which nothing ever
      ran; an orphaned one that runs is asked to terminate, with the grace of its last pod. */
  lemma SweepDoes(s: State, r: Record, orphaned: bool)
    requires s.record == Some(r)
    ensures var next := RemoveTerminatedWorker(s, r, orphaned);
            var marked := r.(marks := r.marks.(deleted := true));
            if r.finished || (orphaned && !r.started && !r.observedRuntime) then next.record.None? && ChannelClosed(s, next)
            else if !orphaned then next == s
            else if r.terminating then AskedAgain(s, next, marked)
            else AskedAgain(s, next, marked.(terminating := true,
                   gracePeriod := if r.active.Some? && r.active.value.pod.Some? then Grace(r.gracePeriod, r.active.value.pod, None) else 1))
  {
    hide Requeue, Grace, AskedAgain;
    var marked := r.(marks := r.marks.(deleted := true));
    RequeueDoes(s, marked);
    RequeueDoes(s, marked.(terminating := true,
      gracePeriod := if r.active.Some? && r.active.value.pod.Some? then Grace(r.gracePeriod, r.active.value.pod, None) else 1));
  }
}
