/** The pod workers as the object that changes in place: its methods move the life of a pod exactly
    as the steps say. */
module KubeletWorkers {
  import opened Options
  import opened P = PodWorkers
  import opened PodWorkerUpdates

  /** A sound state in which an update finds its record, or no worker that could still work for an
      earlier one. */
  predicate MayUpdate(s: State, update: Update) {
    Inv(s) && (s.record.None? && Accepted(update) ==> Quiet(s, None))
  }

  lemma UpdateKeeps(s: State, update: Update, cacheTerminal: bool)
    ensures MayUpdate(s, update) ==> Inv(P.UpdatePod(s, update, cacheTerminal))
  {
    hide Inv, Quiet, P.UpdatePod;
    if MayUpdate(s, update) {
      AskKeeps(s, update, cacheTerminal);
    }
  }

  class PodWorkersImpl {
    var podSyncStatus: Option<Record>
    var podUpdates: Option<nat>
    var channels: seq<Wakeup>
    var workers: seq<Phase>
    var epochs: nat

    /** The record, its channel and the workers are sound. */
    ghost predicate Valid()
      reads this
    {
      Inv(View())
    }

    constructor ()
      ensures Valid() && View() == State(None, None, [], [], 0)
    {
      podSyncStatus, podUpdates, channels, workers, epochs := None, None, [], [], 0;
    }

    ghost function View(): State
      reads this
    {
      State(podSyncStatus, podUpdates, channels, workers, epochs)
    }

    /** Wakes the worker of the pod, if there is one; a token already there is enough. */
    method TrySend()
      modifies this`channels
      ensures View() == Send(old(View()))
    {
      if podUpdates.Some? && podUpdates.value < |channels| {
        channels := channels[podUpdates.value := channels[podUpdates.value].(token := true)];
      }
    }

    /** A request that may end the pod marks it so. */
    static method BeginTermination(r: Record, options: Update, pod: Option<Pod>, isRuntimePod: bool) returns (status: Record)
      ensures status == Terminate(r, options, pod, isRuntimePod)
    {
      status := r;
      if !status.terminating {
        var marks := status.marks;
        if isRuntimePod || (pod.Some? && pod.value.deleting) {
          status := status.(terminating := true, marks := marks.(deleted := true));
        } else if pod.Some? && pod.value.ended {
          status := status.(terminating := true);
        } else if options.kind.KillUpdate? {
          if options.kill.Some? && options.kill.value.evict {
            marks := marks.(evicted := true);
          }
          status := status.(terminating := true, marks := marks);
        }
      }
    }

    /** What becomes of the kill options, given how far the pod has come. */
    static method SettleKillOptions(r: Record, update: Update, pod: Option<Pod>, isRuntimePod: bool) returns (reaction: Reaction)
      ensures reaction == ReactTerminating(r, update, pod, isRuntimePod)
    {
      hide Grace;
      if r.terminated {
        if isRuntimePod {
          return Ignore(r);
        }
        return Enqueue(r, update.(kill := None));
      }
      if r.terminating {
        var kill := if update.kill.Some? then update.kill.value else NoKill();
        var gracePeriod, _ := CalculateEffectiveGracePeriod(r.gracePeriod, pod, Some(kill));
        return Enqueue(r.(gracePeriod := gracePeriod), update.(kill := Some(kill.(override := Some(gracePeriod)))));
      }
      return Enqueue(r, update.(kill := None));
    }

    /** The record's reaction to an update. */
    static method ReactTo(r: Record, update: Update, firstTime: bool, isRuntimePod: bool) returns (reaction: Reaction)
      ensures reaction == React(r, update, firstTime, isRuntimePod)
    {
      hide Terminate, ReactTerminating;
      var status, options, pod := r, update, update.pod;
      if isRuntimePod {
        status := status.(observedRuntime := true);
        pod := None;
        if status.pending.Some? && status.pending.value.pod.Some? {
          pod := status.pending.value.pod;
        } else if status.active.Some? && status.active.value.pod.Some? {
          pod := status.active.value.pod;
        }
        if pod.Some? {
          options := options.(pod := pod, running := false);
        }
      }
      assert pod == PodOf(status, update, isRuntimePod);
      if !firstTime && status.terminating {
        if options.kind.CreateUpdate? {
          return Ignore(status.(marks := status.marks.(restartRequested := true)));
        }
      }
      if status.finished {
        return Ignore(status);
      }
      status := BeginTermination(status, options, pod, isRuntimePod);
      reaction := SettleKillOptions(status, options, pod, isRuntimePod);
    }

    method UpdatePod(update: Update, cacheTerminal: bool)
      modifies this
      ensures View() == P.UpdatePod(old(View()), update, cacheTerminal)
      ensures MayUpdate(old(View()), update) ==> Valid()
      ensures UpdateMeans(old(View()), View(), update, cacheTerminal)
    {
      hide React, Inv, MayUpdate, UpdateMeans;
      UpdateKeeps(View(), update, cacheTerminal);
      UpdateDoes(View(), update, cacheTerminal);
      var options, isRuntimePod := update, false;
      if options.running {
        if options.pod.None? {
          if !options.kind.KillUpdate? {
            return;
          }
          isRuntimePod := true;
        } else {
          options := options.(running := false);
        }
      } else if options.pod.None? {
        return;
      }
      var firstTime := podSyncStatus.None?;
      if firstTime {
        var terminal := options.pod.Some? && options.pod.value.ended && cacheTerminal;
        podSyncStatus := Some(Fresh(epochs, terminal));
        epochs := epochs + 1;
      }
      var reaction := ReactTo(podSyncStatus.value, options, firstTime, isRuntimePod);
      podSyncStatus := Some(reaction.record);
      if reaction.Enqueue? {
        if podUpdates.None? {
          podUpdates, channels, workers := Some(|channels|), channels + [Wakeup(false, true)], workers + [Waiting];
        }
        podSyncStatus := Some(reaction.record.(pending := Some(reaction.update), working := true));
        TrySend();
      }
    }

    /** Hands the pending update to a worker; what it starts becomes the worker's phase. */
    method StartPodSync(w: nat)
      requires w < |workers|
      modifies this
      ensures View() == P.StartPodSync(old(View()), w)
      ensures old(Valid()) && old(workers)[w].Woken? ==> Valid()
      ensures |workers| == |old(workers)|
      ensures workers[w].Syncing? ==>
                && old(podSyncStatus).Some? && old(podSyncStatus).value.pending == Some(workers[w].update)
                && workers[w].work == WorkOf(old(podSyncStatus).value)
      ensures podSyncStatus.Some? ==> podSyncStatus.value.pending.None?
    {
      hide Inv, P.StartPodSync, MergeLastUpdate;
      if Valid() && workers[w].Woken? {
        StartKeeps(View(), w);
      }
      StartOutcome(View(), w);
      TakeUpdate(w);
    }

    /** Takes the token of the current channel. */
    method Drain()
      modifies this`channels
      ensures View() == P.Drain(old(View()))
    {
      if podUpdates.Some? && podUpdates.value < |channels| {
        channels := channels[podUpdates.value := channels[podUpdates.value].(token := false)];
      }
    }

    method TakeUpdate(w: nat)
      requires w < |workers|
      modifies this
      ensures View() == P.StartPodSync(old(View()), w)
    {
      hide MergeLastUpdate;
      if podSyncStatus.None? {
        workers := workers[w := Waiting];
        return;
      }
      var status := podSyncStatus.value;
      if status.pending.None? {
        podSyncStatus, workers := Some(status.(working := false)), workers[w := Waiting];
        return;
      }
      var options, work := status.pending.value, WorkOf(status);
      Drain();
      status := status.(pending := None, active := Some(MergeLastUpdate(status.active, options)),
                        story := status.story.(handed := status.story.handed + [work]));
      var canStart := status.started || (options.running && work.TerminatingPod?);
      if !canStart && options.pod.Some? {
        status := status.(started := true);
        canStart := true;
      }
      podSyncStatus := Some(status);
      workers := workers[w := if canStart then Syncing(work, options, status.story.epoch) else Exited];
    }

    /** Puts the last update back in the queue if none is there. */
    method RequeueLastPodUpdate()
      requires podSyncStatus.Some?
      modifies this`podSyncStatus, this`channels
      ensures View() == Requeue(old(View()), old(podSyncStatus).value)
      ensures podSyncStatus.Some?
      ensures old(podSyncStatus).value.pending.Some? ==> View() == old(View())
      ensures old(podSyncStatus).value.pending.None? ==> podSyncStatus.value.pending == old(podSyncStatus).value.active
      ensures old(podSyncStatus).value.pending.None? && podSyncStatus.value.pending.Some? ==>
                && podSyncStatus.value.working
                && (podUpdates.Some? && podUpdates.value < |channels| ==> channels[podUpdates.value].token)
    {
      var status := podSyncStatus.value;
      if status.pending.Some? || status.active.None? {
        return;
      }
      podSyncStatus := Some(status.(pending := status.active, working := true));
      TrySend();
    }

    method CleanupPodUpdates()
      modifies this`podUpdates, this`channels
      ensures View() == CleanUp(old(View()))
    {
      if podUpdates.Some? && podUpdates.value < |channels| {
        channels := channels[podUpdates.value := channels[podUpdates.value].(open := false)];
        podUpdates := None;
      }
    }

    /** Afterwards the record of a pod that is asked to terminate says that its termination has begun. */
    method AcknowledgeTerminating(ghost w: nat)
      requires Enabled(View(), Acknowledge(w))
      modifies this`podSyncStatus
      ensures View() == Apply(old(View()), Acknowledge(w))
      ensures old(Valid()) ==> Valid()
      ensures podSyncStatus.Some? && podSyncStatus.value.terminating ==> podSyncStatus.value.marks.startedTerminating
    {
      hide Inv;
      if Valid() {
        AcknowledgeKeeps(View(), w);
      }
      if podSyncStatus.None? {
        return;
      }
      var status := podSyncStatus.value;
      if status.terminating && !status.marks.startedTerminating {
        podSyncStatus := Some(status.(marks := status.marks.(startedTerminating := true)));
      }
    }

    method CompleteSync()
      modifies this`podSyncStatus, this`channels
      ensures View() == P.CompleteSync(old(View()))
    {
      if podSyncStatus.Some? {
        var status := podSyncStatus.value;
        podSyncStatus := Some(status.(terminating := true, marks := status.marks.(startedTerminating := true)));
        RequeueLastPodUpdate();
      }
    }

    method CompleteTerminating(epoch: nat)
      modifies this`podSyncStatus, this`channels
      ensures View() == P.CompleteTerminating(old(View()), epoch)
    {
      if podSyncStatus.Some? {
        var status := podSyncStatus.value;
        podSyncStatus := Some(status.(terminated := true, story := status.story.(ended := status.story.ended || status.story.epoch == epoch)));
        RequeueLastPodUpdate();
      }
    }

    method CompleteTerminatingRuntimePod()
      modifies this`podSyncStatus, this`podUpdates, this`channels
      ensures View() == CompleteTerminatingRuntime(old(View()))
    {
      CleanupPodUpdates();
      podSyncStatus := None;
    }

    method CompleteTerminated()
      modifies this`podSyncStatus, this`podUpdates, this`channels
      ensures View() == P.CompleteTerminated(old(View()))
    {
      CleanupPodUpdates();
      if podSyncStatus.Some? {
        podSyncStatus := Some(podSyncStatus.value.(finished := true, working := false));
      }
    }

    /** Whether a worker leaves when its sync returns: at the end of its pod. */
    predicate EndsWorker(w: nat, failed: bool)
      requires w < |workers| && workers[w].Syncing?
      reads this
    {
      !failed && (workers[w].work.TerminatedPod? || (workers[w].work.TerminatingPod? && workers[w].update.running))
    }

    /** What a worker does when its sync has returned. */
    method SyncReturned(w: nat, failed: bool, terminal: bool)
      requires w < |workers| && workers[w].Syncing?
      modifies this
      ensures View() == SyncReturns(old(View()), w, failed, terminal)
      ensures old(Valid()) && (failed || CanSucceed(old(workers)[w].work, old(workers)[w].update)) ==> Valid()
      ensures w < |workers| && workers[w] == if old(EndsWorker(w, failed)) then Exited else Completing
      ensures failed ==> podSyncStatus == old(podSyncStatus) && channels == old(channels)
      ensures !failed && podSyncStatus.Some? ==>
                match old(workers)[w].work
                case TerminatedPod => podSyncStatus.value.finished
                case TerminatingPod => podSyncStatus.value.terminated
                case SyncPod => terminal ==> podSyncStatus.value.terminating
    {
      hide Inv;
      if Valid() && (failed || CanSucceed(workers[w].work, workers[w].update)) {
        ReturnKeeps(View(), w, failed, terminal);
      }
      var Syncing(work, options, epoch) := workers[w];
      var phase := Completing;
      if !failed {
        match work {
          case TerminatedPod =>
            CompleteTerminated();
            phase := Exited;
          case TerminatingPod =>
            if options.running {
              CompleteTerminatingRuntimePod();
              phase := Exited;
            } else {
              CompleteTerminating(epoch);
            }
          case SyncPod =>
            if terminal {
              CompleteSync();
            }
        }
      }
      workers := workers[w := phase];
    }

    method CompleteWork(w: nat)
      requires w < |workers|
      modifies this
      ensures View() == P.CompleteWork(old(View()), w)
      ensures old(Valid()) && old(workers)[w].Completing? ==> Valid()
      ensures workers == old(workers)[w := Waiting] && (podSyncStatus.Some? <==> old(podSyncStatus).Some?)
      ensures podSyncStatus.Some? ==>
                if podSyncStatus.value.pending.Some?
                then podUpdates.Some? && podUpdates.value < |channels| ==> channels[podUpdates.value].token
                else !podSyncStatus.value.working
    {
      hide Inv;
      if Valid() && workers[w].Completing? {
        FinishKeeps(View(), w);
      }
      if podSyncStatus.Some? {
        if podSyncStatus.value.pending.Some? {
          TrySend();
        } else {
          podSyncStatus := Some(podSyncStatus.value.(working := false));
        }
      }
      workers := workers[w := Waiting];
    }

    method RemoveTerminatedWorker(orphaned: bool) returns (removed: bool)
      requires podSyncStatus.Some?
      modifies this
      ensures View() == P.RemoveTerminatedWorker(old(View()), old(podSyncStatus).value, orphaned)
      ensures old(Valid()) ==> Valid()
      ensures removed <==> podSyncStatus.None?
    {
      hide Inv;
      if Valid() {
        SweepKeeps(View(), orphaned);
      }
      var status := podSyncStatus.value;
      if !status.finished {
        if !orphaned {
          return false;
        }
        status := status.(marks := status.marks.(deleted := true));
        podSyncStatus := Some(status);
        if status.started || status.observedRuntime {
          if !status.terminating {
            var gracePeriod := 1;
            if status.active.Some? && status.active.value.pod.Some? {
              var effective, _ := CalculateEffectiveGracePeriod(status.gracePeriod, status.active.value.pod, None);
              gracePeriod := effective;
            }
            podSyncStatus := Some(status.(terminating := true, gracePeriod := gracePeriod));
          }
          RequeueLastPodUpdate();
          return false;
        }
      }
      podSyncStatus := None;
      CleanupPodUpdates();
      return true;
    }
  }
}
