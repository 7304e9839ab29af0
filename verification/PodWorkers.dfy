/** The life of one pod in the kubelet: its status record, its wake-up channel, and the workers
    that serve the record's successive channels. Every step is one critical section of the pod
    lock, or one move of a worker between two of them. */
module PodWorkers {
  import opened Options

  datatype WorkType = SyncPod | TerminatingPod | TerminatedPod

  datatype UpdateType = CreateUpdate | ModifyUpdate | SyncUpdate | KillUpdate

  datatype Pod = Pod(deleting: bool, ended: bool, deletionGrace: Option<int>, terminationGrace: Option<int>)

  datatype Kill = Kill(evict: bool, override: Option<int>)

  datatype Update = Update(kind: UpdateType, pod: Option<Pod>, running: bool, kill: Option<Kill>)

  /** Marks that other parts of the kubelet read. */
  datatype Marks = Marks(startedTerminating: bool, deleted: bool, evicted: bool, restartRequested: bool)

  /** The story of one record: its number, whether it was created already terminated, whether a
      terminating sync handed out for this very record returned no error, and the work handed out
      for it. */
  datatype Story = Story(epoch: nat, born: bool, ended: bool, handed: seq<WorkType>)

  datatype Record = Record(
    working: bool, pending: Option<Update>, active: Option<Update>,
    started: bool, terminating: bool, terminated: bool, finished: bool,
    gracePeriod: int, observedRuntime: bool, marks: Marks, story: Story)

  datatype Phase = Waiting | Woken | Syncing(work: WorkType, update: Update, epoch: nat) | Completing | Exited

  /** A channel with room for one token. */
  datatype Wakeup = Wakeup(token: bool, open: bool)

  /** Channel i is served by worker i; `current` is the one that the record's updates go to. */
  datatype State = State(record: Option<Record>, current: Option<nat>, channels: seq<Wakeup>, workers: seq<Phase>, epochs: nat)

  function WorkOf(r: Record): WorkType {
    if r.terminated then TerminatedPod else if r.terminating then TerminatingPod else SyncPod
  }

  function Rank(w: WorkType): nat {
    match w case SyncPod => 0 case TerminatingPod => 1 case TerminatedPod => 2
  }

  // ----- the grace period -----

  /** The grace period of a pod that is asked to terminate, and whether it was shortened. */
  method CalculateEffectiveGracePeriod(grace: int, pod: Option<Pod>, kill: Option<Kill>) returns (gracePeriod: int, shortened: bool)
    ensures gracePeriod == Grace(grace, pod, kill)
    ensures shortened <==> grace != 0 && grace != gracePeriod
  {
    gracePeriod := grace;
    var overridden := false;
    var override := if pod.Some? then pod.value.deletionGrace else None;
    if override.Some? && (gracePeriod == 0 || override.value < gracePeriod) {
      gracePeriod := override.value;
      overridden := true;
    }
    override := if kill.Some? then kill.value.override else None;
    if override.Some? && (gracePeriod == 0 || override.value < gracePeriod) {
      gracePeriod := override.value;
      overridden := true;
    }
    if !overridden && gracePeriod == 0 && pod.Some? && pod.value.terminationGrace.Some? {
      gracePeriod := pod.value.terminationGrace.value;
    }
    if gracePeriod < 1 {
      gracePeriod := 1;
    }
    shortened := grace != 0 && grace != gracePeriod;
  }

  function Shortened(grace: int, override: Option<int>): int {
    if override.Some? && (grace == 0 || override.value < grace) then override.value else grace
  }

  function Grace(grace: int, pod: Option<Pod>, kill: Option<Kill>): int {
    var deletion := if pod.Some? then pod.value.deletionGrace else None;
    var override := if kill.Some? then kill.value.override else None;
    var asked := Shortened(Shortened(grace, deletion), override);
    var g := if asked == 0 && deletion.None? && override.None? && pod.Some? && pod.value.terminationGrace.Some?
             then pod.value.terminationGrace.value else asked;
    if g < 1 then 1 else g
  }

  /** A grace period already set grows exactly when the pod asks for zero and the kill request
      for more than is set. */
  lemma GraceGrowsExactly(grace: int, pod: Option<Pod>, kill: Option<Kill>)
    requires grace >= 1
    ensures Grace(grace, pod, kill) >= 1
    ensures Grace(grace, pod, kill) > grace <==>
            pod.Some? && pod.value.deletionGrace == Some(0) && kill.Some? && kill.value.override.Some? && kill.value.override.value > grace
  {
  }

  /** When the granted grace period is more than a bound: all that is asked for, and what is set, must
      be, except that a deletion at once gives way to a kill request; with nothing asked for, what is
      set must be, or else the pod's own setting. Nothing below 1 is granted. */
  lemma GraceMeans(grace: int, pod: Option<Pod>, kill: Option<Kill>, bound: int)
    requires grace >= 0 && bound >= 1
    ensures Grace(grace, pod, kill) >= 1
    ensures var deletion := if pod.Some? then pod.value.deletionGrace else None;
            var override := if kill.Some? then kill.value.override else None;
            var own := if pod.Some? && pod.value.terminationGrace.Some? then pod.value.terminationGrace.value else 0;
            var more := if deletion.None? && override.None? then (if grace == 0 then own else grace) > bound
                        else if deletion == Some(0) && override.Some? then override.value > bound
                        else (deletion.Some? ==> deletion.value > bound) && (override.Some? ==> override.value > bound) && (grace > 0 ==> grace > bound);
            Grace(grace, pod, kill) > bound <==> more
  {
  }

  // ----- updates -----

  function Fresh(epoch: nat, born: bool): Record {
    Record(false, None, None, false, born, born, false, 0, false, Marks(born, false, false, false), Story(epoch, born, false, []))
  }

  function Send(s: State): State {
    if s.current.Some? && s.current.value < |s.channels|
    then s.(channels := s.channels[s.current.value := s.channels[s.current.value].(token := true)])
    else s
  }

  function CleanUp(s: State): State {
    if s.current.Some? && s.current.value < |s.channels|
    then s.(channels := s.channels[s.current.value := s.channels[s.current.value].(open := false)], current := None)
    else s
  }

  /** The channel of the record, with its worker, made when there is none. */
  function OpenChannel(s: State): State {
    if s.current.Some? then s
    else s.(current := Some(|s.channels|), channels := s.channels + [Wakeup(false, true)], workers := s.workers + [Waiting])
  }

  /** The pod that an update is about: a runtime-only update borrows the pending or active one. */
  function PodOf(r: Record, u: Update, isRuntime: bool): Option<Pod> {
    if !isRuntime then u.pod
    else if r.pending.Some? && r.pending.value.pod.Some? then r.pending.value.pod
    else if r.active.Some? && r.active.value.pod.Some? then r.active.value.pod
    else None
  }

  predicate AsksToTerminate(u: Update, pod: Option<Pod>, isRuntime: bool) {
    isRuntime || (pod.Some? && (pod.value.deleting || pod.value.ended)) || u.kind.KillUpdate?
  }

  /** The record's reaction to a request that may end the pod. */
  function Terminate(r: Record, u: Update, pod: Option<Pod>, isRuntime: bool): Record {
    if r.terminating || !AsksToTerminate(u, pod, isRuntime) then r
    else if isRuntime || (pod.Some? && pod.value.deleting) then r.(terminating := true, marks := r.marks.(deleted := true))
    else if pod.Some? && pod.value.ended then r.(terminating := true)
    else r.(terminating := true, marks := r.marks.(evicted := r.marks.evicted || (u.kill.Some? && u.kill.value.evict)))
  }

  function NoKill(): Kill {
    Kill(false, None)
  }

  /** What an update makes of the record: a change without work, or an update to queue. */
  datatype Reaction = Ignore(record: Record) | Enqueue(record: Record, update: Update)

  function ReactTerminating(t: Record, u: Update, pod: Option<Pod>, isRuntime: bool): Reaction {
    if t.terminated then
      if isRuntime then Ignore(t) else Enqueue(t, u.(kill := None))
    else if t.terminating then
      var kill := if u.kill.Some? then u.kill.value else NoKill();
      var grace := Grace(t.gracePeriod, pod, Some(kill));
      Enqueue(t.(gracePeriod := grace), u.(kill := Some(kill.(override := Some(grace)))))
    else Enqueue(t, u.(kill := None))
  }

  function React(r0: Record, u0: Update, firstTime: bool, isRuntime: bool): Reaction {
    var r := if isRuntime then r0.(observedRuntime := true) else r0;
    var pod := PodOf(r, u0, isRuntime);
    var u := if isRuntime && pod.Some? then u0.(pod := pod, running := false) else u0;
    if !firstTime && r.terminating && u.kind.CreateUpdate? then Ignore(r.(marks := r.marks.(restartRequested := true)))
    else if r.finished then Ignore(r)
    else ReactTerminating(Terminate(r, u, pod, isRuntime), u, pod, isRuntime)
  }

  /** Queues an update on the record. */
  function Queue(s: State, r: Record, u: Update): State {
    Send(OpenChannel(s).(record := Some(r.(pending := Some(u), working := true))))
  }

  function UpdateRecord(s: State, reaction: Reaction): State {
    match reaction
    case Ignore(r) => s.(record := Some(r))
    case Enqueue(r, u) => Queue(s, r, u)
  }

  /** Asks for an update; `cacheTerminal` says that the runtime has nothing of the pod running. */
  function UpdatePod(s: State, u0: Update, cacheTerminal: bool): State {
    if u0.pod.None? && !(u0.running && u0.kind.KillUpdate?) then s
    else
      var isRuntime := u0.pod.None?;
      var u := if isRuntime then u0 else u0.(running := false);
      if s.record.Some? then UpdateRecord(s, React(s.record.value, u, false, isRuntime))
      else
        var born := u.pod.Some? && u.pod.value.ended && cacheTerminal;
        UpdateRecord(s.(epochs := s.epochs + 1), React(Fresh(s.epochs, born), u, true, isRuntime))
  }

  // ----- workers -----

  function SetWorker(s: State, w: nat, phase: Phase): State
    requires w < |s.workers|
  {
    s.(workers := s.workers[w := phase])
  }

  /** Remembers an update as the one being worked on. */
  function MergeLastUpdate(active: Option<Update>, other: Update): Update {
    var opts := if active.Some? then active.value else Update(SyncUpdate, None, false, None);
    Update(opts.kind,
           if opts.pod.None? || !other.running then other.pod else opts.pod,
           other.running,
           if other.kill.Some? then other.kill else opts.kill)
  }

  /** Takes the pending update for a worker that was woken. */
  function StartPodSync(s: State, w: nat): State
    requires w < |s.workers|
  {
    if s.record.None? then SetWorker(s, w, Waiting)
    else
      var r := s.record.value;
      if r.pending.None? then SetWorker(s.(record := Some(r.(working := false))), w, Waiting)
      else SetWorker(Drain(s).(record := Some(HandedOut(r, r.pending.value))), w, PhaseOf(r, r.pending.value))
  }

  /** Takes the token of the current channel. */
  function Drain(s: State): State {
    if s.current.None? || s.current.value >= |s.channels| then s
    else s.(channels := s.channels[s.current.value := s.channels[s.current.value].(token := false)])
  }

  /** The record once its pending update has been handed out. */
  function HandedOut(r: Record, u: Update): Record {
    var work := WorkOf(r);
    var merged := r.(pending := None, active := Some(MergeLastUpdate(r.active, u)), story := r.story.(handed := r.story.handed + [work]));
    if r.started || (u.running && work.TerminatingPod?) || u.pod.None? then merged else merged.(started := true)
  }

  /** What a worker does with the update that it was handed: a record that cannot be started lets it go. */
  function PhaseOf(r: Record, u: Update): Phase {
    if r.started || (u.running && WorkOf(r).TerminatingPod?) || u.pod.Some? then Syncing(WorkOf(r), u, r.story.epoch) else Exited
  }

  function Requeue(s: State, r: Record): State {
    if r.pending.Some? || r.active.None? then s.(record := Some(r))
    else Send(s.(record := Some(r.(pending := r.active, working := true))))
  }

  /** Whether a sync can return without an error: the update must carry what its work needs. */
  predicate CanSucceed(work: WorkType, u: Update) {
    if u.running then work.TerminatingPod? else u.pod.Some?
  }

  function CompleteSync(s: State): State {
    if s.record.None? then s else Requeue(s, s.record.value.(terminating := true, marks := s.record.value.marks.(startedTerminating := true)))
  }

  function CompleteTerminating(s: State, epoch: nat): State {
    if s.record.None? then s
    else
      var r := s.record.value;
      Requeue(s, r.(terminated := true, story := r.story.(ended := r.story.ended || r.story.epoch == epoch)))
  }

  function CompleteTerminatingRuntime(s: State): State {
    CleanUp(s).(record := None)
  }

  function CompleteTerminated(s: State): State {
    var closed := CleanUp(s);
    if s.record.None? then closed else closed.(record := Some(s.record.value.(finished := true, working := false)))
  }

  /** A sync returns: with an error, or with what its work then completes. */
  function SyncReturns(s: State, w: nat, failed: bool, terminal: bool): State
    requires w < |s.workers| && s.workers[w].Syncing?
  {
    var Syncing(work, u, epoch) := s.workers[w];
    if failed then SetWorker(s, w, Completing)
    else match work
      case TerminatedPod => SetWorker(CompleteTerminated(s), w, Exited)
      case TerminatingPod =>
        if u.running then SetWorker(CompleteTerminatingRuntime(s), w, Exited)
        else SetWorker(CompleteTerminating(s, epoch), w, Completing)
      case SyncPod => SetWorker(if terminal then CompleteSync(s) else s, w, Completing)
  }

  function CompleteWork(s: State, w: nat): State
    requires w < |s.workers|
  {
    if s.record.None? then SetWorker(s, w, Waiting)
    else if s.record.value.pending.Some? then SetWorker(Send(s), w, Waiting)
    else SetWorker(s.(record := Some(s.record.value.(working := false))), w, Waiting)
  }

  /** The periodic sweep over a record that is orphaned or asked to restart. */
  function RemoveTerminatedWorker(s: State, r0: Record, orphaned: bool): State {
    if r0.finished then CleanUp(s).(record := None)
    else if !orphaned then s
    else
      var r := r0.(marks := r0.marks.(deleted := true));
      if !r.started && !r.observedRuntime then CleanUp(s).(record := None)
      else if !r.terminating then
        var grace := if r.active.Some? && r.active.value.pod.Some? then Grace(r.gracePeriod, r.active.value.pod, None) else 1;
        Requeue(s, r.(terminating := true, gracePeriod := grace))
      else Requeue(s, r)
  }

  datatype Step =
    | Ask(update: Update, cacheTerminal: bool)
    | Receive(w: nat)
    | Leave(w: nat)
    | Start(w: nat)
    | Acknowledge(w: nat)
    | Return(w: nat, failed: bool, terminal: bool)
    | Finish(w: nat)
    | Sweep(orphaned: bool)

  predicate Enabled(s: State, step: Step) {
    match step
    case Ask(_, _) => true
    case Receive(w) => w < |s.workers| && w < |s.channels| && s.workers[w].Waiting? && s.channels[w].token
    case Leave(w) => w < |s.workers| && w < |s.channels| && s.workers[w].Waiting? && !s.channels[w].token && !s.channels[w].open
    case Start(w) => w < |s.workers| && s.workers[w].Woken?
    case Acknowledge(w) => w < |s.workers| && s.workers[w].Syncing? && s.workers[w].work.TerminatingPod?
    case Return(w, failed, terminal) =>
      w < |s.workers| && s.workers[w].Syncing? && (failed || CanSucceed(s.workers[w].work, s.workers[w].update))
    case Finish(w) => w < |s.workers| && s.workers[w].Completing?
    case Sweep(orphaned) => s.record.Some? && (orphaned || s.record.value.marks.restartRequested)
  }

  function Apply(s: State, step: Step): State
    requires Enabled(s, step)
  {
    match step
    case Ask(u, cacheTerminal) => UpdatePod(s, u, cacheTerminal)
    case Receive(w) => SetWorker(s.(channels := s.channels[w := s.channels[w].(token := false)]), w, Woken)
    case Leave(w) => SetWorker(s, w, Exited)
    case Start(w) => StartPodSync(s, w)
    case Acknowledge(w) =>
      if s.record.None? then s
      else
        var r := s.record.value;
        s.(record := Some(r.(marks := r.marks.(startedTerminating := r.marks.startedTerminating || r.terminating))))
    case Return(w, failed, terminal) => SyncReturns(s, w, failed, terminal)
    case Finish(w) => CompleteWork(s, w)
    case Sweep(orphaned) => RemoveTerminatedWorker(s, s.record.value, orphaned)
  }

  // ----- the language of work, whatever the workers do -----

  /** SyncPod* TerminatingPod* TerminatedPod* */
  predicate LifecycleWord(handed: seq<WorkType>) {
    forall i, j :: 0 <= i < j < |handed| ==> Rank(handed[i]) <= Rank(handed[j])
  }

  predicate WorkBounded(handed: seq<WorkType>, upTo: WorkType) {
    forall i :: 0 <= i < |handed| ==> Rank(handed[i]) <= Rank(upTo)
  }

  predicate StoryOk(r: Record, epochs: nat) {
    LifecycleWord(r.story.handed) && WorkBounded(r.story.handed, WorkOf(r)) && r.story.epoch < epochs
  }

  /** The work handed out for a record so far only moves forward. */
  predicate Ordered(s: State) {
    s.record.Some? ==> StoryOk(s.record.value, s.epochs)
  }

  /** A record that keeps its identity and what was handed out, and whose flags do not go back. */
  predicate Forward(was: Record, now: Record) {
    && now.story.epoch == was.story.epoch && now.story.handed == was.story.handed
    && Rank(WorkOf(was)) <= Rank(WorkOf(now))
  }

  lemma SendRecord(s: State)
    ensures Send(s).record == s.record && Send(s).epochs == s.epochs
    ensures OpenChannel(s).record == s.record && OpenChannel(s).epochs == s.epochs
    ensures CleanUp(s).record == s.record && CleanUp(s).epochs == s.epochs
    ensures Drain(s).record == s.record && Drain(s).epochs == s.epochs && Drain(s).workers == s.workers
  {
  }

  lemma QueueForward(s: State, r: Record, u: Update)
    ensures Queue(s, r, u).record == Some(r.(pending := Some(u), working := true)) && Queue(s, r, u).epochs == s.epochs
  {
    SendRecord(s);
    SendRecord(OpenChannel(s).(record := Some(r.(pending := Some(u), working := true))));
  }

  lemma RequeueForward(s: State, r: Record)
    ensures Requeue(s, r).record.Some? && Forward(r, Requeue(s, r).record.value) && Requeue(s, r).epochs == s.epochs
  {
    SendRecord(s.(record := Some(r.(pending := r.active, working := true))));
  }

  lemma ReactForward(r0: Record, u0: Update, firstTime: bool, isRuntime: bool)
    ensures Forward(r0, React(r0, u0, firstTime, isRuntime).record)
  {
    hide Grace, PodOf;
    var r := if isRuntime then r0.(observedRuntime := true) else r0;
    var pod := PodOf(r, u0, isRuntime);
    var u := if isRuntime && pod.Some? then u0.(pod := pod, running := false) else u0;
    TerminateForward(r, u, pod, isRuntime);
  }

  lemma TerminateForward(r: Record, u: Update, pod: Option<Pod>, isRuntime: bool)
    ensures Forward(r, ReactTerminating(Terminate(r, u, pod, isRuntime), u, pod, isRuntime).record)
  {
    hide Grace;
  }

  lemma UpdateForward(s: State, r0: Record, u0: Update, firstTime: bool, isRuntime: bool)
    ensures var s' := UpdateRecord(s, React(r0, u0, firstTime, isRuntime));
            s'.record.Some? && Forward(r0, s'.record.value) && s'.epochs == s.epochs
  {
    ReactForward(r0, u0, firstTime, isRuntime);
    hide Queue, React;
    match React(r0, u0, firstTime, isRuntime) {
      case Ignore(r) =>
      case Enqueue(r, u) => QueueForward(s, r, u);
    }
  }

  /** What a step may do to the record: drop it, put a new one in place, move it forward, or hand
      out the work that its flags ask for. */
  predicate RecordStep(s: State, s': State) {
    s'.record.None? ||
    var now := s'.record.value;
    if s.record.None? then now.story.epoch == s.epochs && s'.epochs == s.epochs + 1 && now.story.handed == []
    else
      var was := s.record.value;
      && s'.epochs == s.epochs
      && (Forward(was, now) ||
          (now.story.epoch == was.story.epoch && now.story.handed == was.story.handed + [WorkOf(was)] && WorkOf(now) == WorkOf(was)))
  }

  lemma AskMovesRecord(s: State, u0: Update, cacheTerminal: bool)
    ensures RecordStep(s, UpdatePod(s, u0, cacheTerminal))
  {
    hide UpdateRecord, React;
    if Accepted(u0) {
      var isRuntime := u0.pod.None?;
      var u := if isRuntime then u0 else u0.(running := false);
      if s.record.Some? {
        UpdateForward(s, s.record.value, u, false, isRuntime);
      } else {
        var born := u.pod.Some? && u.pod.value.ended && cacheTerminal;
        UpdateForward(s.(epochs := s.epochs + 1), Fresh(s.epochs, born), u, true, isRuntime);
      }
    }
  }

  lemma CompletionsMoveRecord(s: State, epoch: nat)
    ensures RecordStep(s, CompleteSync(s)) && RecordStep(s, CompleteTerminating(s, epoch))
    ensures RecordStep(s, CompleteTerminatingRuntime(s)) && RecordStep(s, CompleteTerminated(s))
  {
    hide Requeue, CleanUp;
    SendRecord(s);
    if s.record.Some? {
      var r := s.record.value;
      RequeueForward(s, r.(terminating := true, marks := r.marks.(startedTerminating := true)));
      RequeueForward(s, r.(terminated := true, story := r.story.(ended := r.story.ended || r.story.epoch == epoch)));
    }
  }

  lemma ReturnMovesRecord(s: State, w: nat, failed: bool, terminal: bool)
    requires w < |s.workers| && s.workers[w].Syncing?
    ensures RecordStep(s, SyncReturns(s, w, failed, terminal))
  {
    CompletionsMoveRecord(s, s.workers[w].epoch);
    hide CompleteSync, CompleteTerminating, CompleteTerminatingRuntime, CompleteTerminated;
  }

  lemma SweepMovesRecord(s: State, orphaned: bool)
    requires s.record.Some?
    ensures RecordStep(s, RemoveTerminatedWorker(s, s.record.value, orphaned))
  {
    hide Requeue, CleanUp, Grace;
    var r := s.record.value.(marks := s.record.value.marks.(deleted := true));
    var grace := if r.active.Some? && r.active.value.pod.Some? then Grace(r.gracePeriod, r.active.value.pod, None) else 1;
    RequeueForward(s, r.(terminating := true, gracePeriod := grace));
    RequeueForward(s, r);
  }

  lemma StartMovesRecord(s: State, w: nat)
    requires w < |s.workers|
    ensures RecordStep(s, StartPodSync(s, w))
  {
    hide Drain, MergeLastUpdate, PhaseOf;
    SendRecord(s);
  }

  lemma FinishMovesRecord(s: State, w: nat)
    requires w < |s.workers|
    ensures RecordStep(s, CompleteWork(s, w))
  {
    hide Send;
    SendRecord(s);
  }

  lemma StepMovesRecord(s: State, step: Step)
    requires Enabled(s, step)
    ensures RecordStep(s, Apply(s, step))
  {
    hide UpdatePod, SyncReturns, RemoveTerminatedWorker, StartPodSync, CompleteWork;
    match step {
      case Ask(u0, cacheTerminal) => AskMovesRecord(s, u0, cacheTerminal);
      case Return(w, failed, terminal) => ReturnMovesRecord(s, w, failed, terminal);
      case Sweep(orphaned) => SweepMovesRecord(s, orphaned);
      case Start(w) => StartMovesRecord(s, w);
      case Finish(w) => FinishMovesRecord(s, w);
      case _ =>
    }
  }

  /** The work handed out for one record is a lifecycle word in every run, however many workers
      there are, and it is never taken back. */
  lemma StepKeepsOrder(s: State, step: Step)
    requires Ordered(s) && Enabled(s, step)
    ensures var s' := Apply(s, step);
            && Ordered(s')
            && (s.record.Some? && s'.record.Some? ==> s.record.value.story.handed <= s'.record.value.story.handed)
            && (s.record.None? && s'.record.Some? ==> s'.record.value.story.handed == [])
  {
    StepMovesRecord(s, step);
    hide Apply, Enabled;
    var s' := Apply(s, step);
    if s'.record.Some? && s.record.Some? && s'.record.value.story.handed != s.record.value.story.handed {
      WordGrows(s.record.value.story.handed, WorkOf(s.record.value));
    }
  }

  lemma WordGrows(handed: seq<WorkType>, work: WorkType)
    requires LifecycleWord(handed) && WorkBounded(handed, work)
    ensures LifecycleWord(handed + [work]) && WorkBounded(handed + [work], work)
  {
  }

  // ----- one worker, and no update forgotten -----

  predicate Idle(s: State, w: nat)
    requires w < |s.workers| == |s.channels|
  {
    s.workers[w].Exited? || (s.workers[w].Waiting? && !s.channels[w].token)
  }

  predicate Quiet(s: State, except: Option<nat>)
    requires |s.workers| == |s.channels|
  {
    forall w :: 0 <= w < |s.workers| && except != Some(w) ==> Idle(s, w)
  }

  /** An update that a worker can start on. */
  predicate Startable(r: Record, u: Update) {
    && (u.pod.Some? || (u.running && r.terminating && (r.started || !r.terminated)))
    && (u.running ==> r.observedRuntime)
  }

  /** The update being worked on: a started record has a full pod there. */
  predicate ActiveOk(r: Record) {
    if r.active.Some? then
      && (r.active.value.pod.Some? || (r.active.value.running && r.terminating && !r.terminated && !r.started))
      && (r.active.value.running ==> r.observedRuntime)
    else !r.started
  }

  /** A grace period that is set belongs to a pod that terminates, and is at least 1. */
  predicate GraceOk(r: Record) {
    r.gracePeriod == 0 || (r.terminating && r.gracePeriod >= 1)
  }

  predicate RecordOk(r: Record) {
    && (r.terminated ==> r.terminating && (r.story.born || r.story.ended))
    && (!r.started && r.terminated ==> r.story.born && r.active.None?)
    && GraceOk(r)
    && ActiveOk(r)
    && (r.finished ==> r.terminated)
  }

  predicate PendingOk(r: Record) {
    r.pending.Some? ==> r.working && Startable(r, r.pending.value)
  }

  /** What a worker may be doing for the record. */
  predicate WorkerOk(r: Record, phase: Phase) {
    match phase
    case Syncing(work, u, epoch) =>
      && epoch == r.story.epoch && Rank(work) <= Rank(WorkOf(r))
      && (r.started || (u.running && work.TerminatingPod? && r.observedRuntime))
    case Completing => r.started || r.observedRuntime
    case Exited => false
    case _ => true
  }

  /** The worker of the record's channel will come to a pending update. */
  predicate WillServe(phase: Phase, channel: Wakeup) {
    if phase.Waiting? then channel.token else !phase.Exited?
  }

  /** Only the current channel is open, and it is the newest. */
  predicate ChannelsOk(s: State) {
    && |s.channels| == |s.workers|
    && (s.current.Some? ==> s.current.value + 1 == |s.workers|)
    && (forall w :: 0 <= w < |s.channels| ==> (s.channels[w].open <==> s.current == Some(w)))
  }

  predicate ServedBy(r: Record, phase: Phase, channel: Wakeup) {
    PendingOk(r) && WorkerOk(r, phase) && (r.pending.Some? ==> WillServe(phase, channel))
  }

  predicate AtRest(phase: Phase) {
    !phase.Syncing? && !phase.Completing?
  }

  predicate Inv(s: State) {
    && ChannelsOk(s)
    && Ordered(s)
    && (s.current.Some? <==> s.record.Some? && !s.record.value.finished)
    && (if s.record.None? then forall w :: 0 <= w < |s.workers| ==> AtRest(s.workers[w])
        else RecordOk(s.record.value) && Quiet(s, s.current))
    && (s.current.Some? ==> ServedBy(s.record.value, s.workers[s.current.value], s.channels[s.current.value]))
  }

  /** An update that is not ignored outright. */
  predicate Accepted(u: Update) {
    u.pod.Some? || (u.running && u.kind.KillUpdate?)
  }

  lemma SendKeeps(s: State)
    requires ChannelsOk(s) && s.current.Some?
    ensures ChannelsOk(Send(s))
    ensures Send(s).workers == s.workers && Send(s).record == s.record && Send(s).current == s.current && Send(s).epochs == s.epochs
    ensures Send(s).channels[s.current.value].token
    ensures Quiet(s, s.current) ==> Quiet(Send(s), s.current)
  {
  }

  lemma OpenKeeps(s: State)
    requires ChannelsOk(s) && Quiet(s, s.current)
    ensures var o := OpenChannel(s);
            && ChannelsOk(o) && o.current.Some? && o.record == s.record && o.epochs == s.epochs && Quiet(o, o.current)
            && o.workers[o.current.value] == if s.current.Some? then s.workers[s.current.value] else Waiting
  {
    var o := OpenChannel(s);
    forall w | 0 <= w < |o.workers| && o.current != Some(w)
      ensures Idle(o, w)
    {
      assert Idle(s, w);
    }
  }

  lemma SetRecord(s: State, r: Option<Record>)
    requires ChannelsOk(s)
    ensures ChannelsOk(s.(record := r)) && (Quiet(s, s.current) ==> Quiet(s.(record := r), s.current))
  {
    assert forall w :: 0 <= w < |s.workers| ==> (Idle(s, w) <==> Idle(s.(record := r), w));
  }

  /** Queuing a startable update on a sound record. */
  lemma QueueKeeps(s: State, r: Record, u: Update)
    requires ChannelsOk(s) && Quiet(s, s.current) && (s.current.Some? ==> WorkerOk(r, s.workers[s.current.value]))
    requires RecordOk(r) && !r.finished && Startable(r, u) && StoryOk(r, s.epochs)
    ensures Inv(Queue(s, r, u))
  {
    var next := r.(pending := Some(u), working := true);
    OpenKeeps(s);
    SetRecord(OpenChannel(s), Some(next));
    SendKeeps(OpenChannel(s).(record := Some(next)));
    hide ChannelsOk, Quiet, Send, OpenChannel, StoryOk;
    assert StoryOk(next, s.epochs) by {
      SameStory(r, next, s.epochs);
    }
  }

  lemma SameStory(r: Record, next: Record, epochs: nat)
    requires StoryOk(r, epochs) && Forward(r, next)
    ensures StoryOk(next, epochs)
  {
  }

  lemma RequeueKeeps(s: State, r: Record)
    requires ChannelsOk(s) && s.current.Some? && Quiet(s, s.current)
    requires ServedBy(r, s.workers[s.current.value], s.channels[s.current.value])
    requires RecordOk(r) && !r.finished && StoryOk(r, s.epochs)
    requires r.active.Some? ==> Startable(r, r.active.value)
    ensures Inv(Requeue(s, r)) && Requeue(s, r).workers == s.workers && Requeue(s, r).current == s.current
  {
    var next := r.(pending := r.active, working := true);
    SetRecord(s, Some(r));
    SetRecord(s, Some(next));
    SameStory(r, next, s.epochs);
    SendKeeps(s.(record := Some(next)));
    hide ChannelsOk, Quiet, Send, StoryOk;
  }

  /** What a reaction leaves alone, and that it is sound. */
  predicate ReactionOk(r0: Record, reaction: Reaction) {
    var r := reaction.record;
    && RecordOk(r) && r.finished == r0.finished && r.started == r0.started && (r0.observedRuntime ==> r.observedRuntime)
    && r.pending == r0.pending && r.working == r0.working && r.story == r0.story && Rank(WorkOf(r0)) <= Rank(WorkOf(r))
    && (if reaction.Enqueue? then !r.finished && Startable(r, reaction.update) else PendingOk(r))
  }

  lemma TerminateOk(r: Record, u: Update, pod: Option<Pod>, isRuntime: bool)
    requires RecordOk(r) && PendingOk(r)
    ensures var t := Terminate(r, u, pod, isRuntime);
            && RecordOk(t) && PendingOk(t)
            && t == r.(terminating := t.terminating, marks := t.marks) && (r.terminating ==> t.terminating)
            && (isRuntime ==> t.terminating)
  {
  }

  lemma ReactTerminatingOk(t: Record, u: Update, pod: Option<Pod>, isRuntime: bool)
    requires RecordOk(t) && PendingOk(t) && !t.finished
    requires if isRuntime then t.observedRuntime && t.terminating && (u.pod.Some? || u.running) else u.pod.Some? && !u.running
    ensures ReactionOk(t, ReactTerminating(t, u, pod, isRuntime))
  {
    var kill := if u.kill.Some? then u.kill.value else NoKill();
    GraceAtLeastOne(t.gracePeriod, pod, Some(kill));
    hide Grace;
  }

  /** An update makes a sound record sound, and what it queues can be started on. */
  lemma ReactOk(r0: Record, u0: Update, firstTime: bool, isRuntime: bool)
    requires RecordOk(r0) && PendingOk(r0)
    requires if isRuntime then u0.pod.None? && u0.running && u0.kind.KillUpdate? else u0.pod.Some? && !u0.running
    ensures ReactionOk(r0, React(r0, u0, firstTime, isRuntime))
  {
    hide ReactTerminating, Terminate;
    var r := if isRuntime then r0.(observedRuntime := true) else r0;
    var pod := PodOf(r, u0, isRuntime);
    var u := if isRuntime && pod.Some? then u0.(pod := pod, running := false) else u0;
    TerminateOk(r, u, pod, isRuntime);
    if !r.finished {
      ReactTerminatingOk(Terminate(r, u, pod, isRuntime), u, pod, isRuntime);
    }
  }

  /** A new record always queues its first update. */
  lemma FirstEnqueues(epoch: nat, born: bool, u: Update, isRuntime: bool)
    requires isRuntime ==> !born
    ensures React(Fresh(epoch, born), u, true, isRuntime).Enqueue?
  {
    hide Grace;
  }

  lemma GraceAtLeastOne(grace: int, pod: Option<Pod>, kill: Option<Kill>)
    ensures Grace(grace, pod, kill) >= 1
  {
  }

  lemma WorkerStillOk(r: Record, now: Record, phase: Phase)
    requires WorkerOk(r, phase) && now.started == r.started && (r.observedRuntime ==> now.observedRuntime)
    requires now.story.epoch == r.story.epoch && Rank(WorkOf(r)) <= Rank(WorkOf(now))
    ensures WorkerOk(now, phase)
  {
  }

  /** An update that changes an existing record. */
  lemma AskAgainKeeps(s: State, u0: Update, isRuntime: bool)
    requires Inv(s) && s.record.Some?
    requires if isRuntime then u0.pod.None? && u0.running && u0.kind.KillUpdate? else u0.pod.Some? && !u0.running
    ensures Inv(UpdateRecord(s, React(s.record.value, u0, false, isRuntime)))
  {
    var r0 := s.record.value;
    if r0.finished {
      FinishedIgnores(r0, u0, isRuntime);
      var r := React(r0, u0, false, isRuntime).record;
      FinishedSame(r0, r, s.epochs);
      SetRecord(s, Some(r));
    } else {
      ReactOk(r0, u0, false, isRuntime);
      hide React, ChannelsOk, Quiet, StoryOk, RecordOk, PendingOk, WorkerOk, Queue;
      var reaction := React(r0, u0, false, isRuntime);
      var r := reaction.record;
      SameStory(r0, r, s.epochs);
      WorkerStillOk(r0, r, s.workers[s.current.value]);
      if reaction.Enqueue? {
        QueueKeeps(s, r, reaction.update);
      } else {
        SetRecord(s, Some(r));
      }
    }
  }

  lemma FinishedIgnores(r0: Record, u0: Update, isRuntime: bool)
    requires r0.finished
    ensures var reaction := React(r0, u0, false, isRuntime);
            && reaction.Ignore?
            && reaction.record == r0.(observedRuntime := r0.observedRuntime || isRuntime, marks := reaction.record.marks)
  {
  }

  lemma FinishedSame(r0: Record, r: Record, epochs: nat)
    requires RecordOk(r0) && StoryOk(r0, epochs) && r == r0.(observedRuntime := r0.observedRuntime || r.observedRuntime, marks := r.marks)
    ensures RecordOk(r) && StoryOk(r, epochs)
  {
  }

  /** An update that inserts a record, when no earlier worker can touch it. */
  lemma FirstAskKeeps(s: State, u0: Update, born: bool, isRuntime: bool)
    requires Inv(s) && s.record.None? && Quiet(s, None) && (isRuntime ==> !born)
    requires if isRuntime then u0.pod.None? && u0.running && u0.kind.KillUpdate? else u0.pod.Some? && !u0.running
    ensures Inv(UpdateRecord(s.(epochs := s.epochs + 1), React(Fresh(s.epochs, born), u0, true, isRuntime)))
  {
    var r0 := Fresh(s.epochs, born);
    FirstEnqueues(s.epochs, born, u0, isRuntime);
    ReactOk(r0, u0, true, isRuntime);
    var reaction := React(r0, u0, true, isRuntime);
    var next := s.(epochs := s.epochs + 1);
    assert StoryOk(r0, next.epochs);
    hide React, StoryOk, RecordOk, PendingOk, WorkerOk, Queue;
    SameStory(r0, reaction.record, next.epochs);
    assert Quiet(next, None) by {
      assert forall w :: 0 <= w < |s.workers| ==> (Idle(s, w) <==> Idle(next, w));
    }
    QueueKeeps(next, reaction.record, reaction.update);
  }

  lemma AskKeeps(s: State, u0: Update, cacheTerminal: bool)
    requires Inv(s) && (s.record.None? && Accepted(u0) ==> Quiet(s, None))
    ensures Inv(UpdatePod(s, u0, cacheTerminal))
  {
    hide Inv, React, UpdateRecord, Quiet;
    if Accepted(u0) {
      var isRuntime := u0.pod.None?;
      var u := if isRuntime then u0 else u0.(running := false);
      if s.record.Some? {
        AskAgainKeeps(s, u, isRuntime);
      } else {
        FirstAskKeeps(s, u, u.pod.Some? && u.pod.value.ended && cacheTerminal, isRuntime);
      }
    }
  }

  // ----- the worker's steps -----

  lemma SetWorkerKeepsChannels(s: State, w: nat, phase: Phase)
    requires ChannelsOk(s) && w < |s.workers|
    ensures ChannelsOk(SetWorker(s, w, phase))
    ensures Quiet(s, s.current) && (s.current == Some(w) || phase.Exited?) ==> Quiet(SetWorker(s, w, phase), s.current)
  {
    var s' := SetWorker(s, w, phase);
    assert forall v :: 0 <= v < |s.workers| && v != w ==> (Idle(s, v) <==> Idle(s', v));
  }

  /** The record's own worker moves, with the record as given. */
  lemma OwnWorkerMoves(s: State, r: Record, phase: Phase)
    requires ChannelsOk(s) && s.current.Some? && Quiet(s, s.current)
    requires RecordOk(r) && !r.finished && StoryOk(r, s.epochs)
    requires ServedBy(r, phase, s.channels[s.current.value])
    ensures Inv(SetWorker(s.(record := Some(r)), s.current.value, phase))
  {
    SetRecord(s, Some(r));
    SetWorkerKeepsChannels(s.(record := Some(r)), s.current.value, phase);
    hide ChannelsOk, Quiet, StoryOk;
  }

  lemma BusyIsCurrent(s: State, w: nat)
    requires ChannelsOk(s) && Quiet(s, s.current) && w < |s.workers| && !Idle(s, w)
    ensures s.current == Some(w)
  {
  }

  lemma ReceiveKeeps(s: State, w: nat)
    requires Inv(s) && Enabled(s, Receive(w))
    ensures Inv(Apply(s, Receive(w)))
  {
    var s' := Apply(s, Receive(w));
    if s.record.Some? {
      BusyIsCurrent(s, w);
      assert forall v :: 0 <= v < |s.workers| && v != w ==> (Idle(s, v) <==> Idle(s', v));
    }
  }

  lemma LeaveKeeps(s: State, w: nat)
    requires Inv(s) && Enabled(s, Leave(w))
    ensures Inv(Apply(s, Leave(w)))
  {
    var s' := Apply(s, Leave(w));
    assert forall v :: 0 <= v < |s.workers| && v != w ==> (Idle(s, v) <==> Idle(s', v));
  }

  /** A worker that is past its receive is the record's own. */
  lemma ActiveIsCurrent(s: State, w: nat)
    requires Inv(s) && w < |s.workers| && !s.workers[w].Waiting? && !s.workers[w].Exited?
    ensures s.record.Some? ==> s.current == Some(w)
    ensures s.workers[w].Syncing? || s.workers[w].Completing? ==> s.record.Some?
  {
    if s.record.Some? {
      BusyIsCurrent(s, w);
    }
  }

  /** Handing out the pending update leaves a sound record, and the worker can always start. */
  lemma HandOut(r: Record, epochs: nat)
    requires RecordOk(r) && PendingOk(r) && StoryOk(r, epochs) && r.pending.Some?
    ensures var next, phase := HandedOut(r, r.pending.value), PhaseOf(r, r.pending.value);
            && phase.Syncing? && RecordOk(next) && StoryOk(next, epochs) && WorkerOk(next, phase)
            && next.finished == r.finished && next.pending.None?
  {
    WordGrows(r.story.handed, WorkOf(r));
    hide LifecycleWord, WorkBounded;
  }

  lemma StartKeeps(s: State, w: nat)
    requires Inv(s) && Enabled(s, Start(w))
    ensures Inv(Apply(s, Start(w)))
  {
    ActiveIsCurrent(s, w);
    if s.record.None? {
      assert forall v :: 0 <= v < |s.workers| ==> AtRest(SetWorker(s, w, Waiting).workers[v]);
    } else {
      var r := s.record.value;
      if r.pending.None? {
        var next := r.(working := false);
        SameStory(r, next, s.epochs);
        OwnWorkerMoves(s, next, Waiting);
      } else {
        HandOut(r, s.epochs);
        hide RecordOk, StoryOk, WorkerOk, HandedOut, PhaseOf;
        Drained(s, w);
        OwnWorkerMoves(Drain(s), HandedOut(r, r.pending.value), PhaseOf(r, r.pending.value));
      }
    }
  }

  /** A worker that starts a sync was handed the pending update of the record, with the work that the
      record then asks for, and no update is left pending. */
  lemma StartOutcome(s: State, w: nat)
    requires w < |s.workers|
    ensures var s' := StartPodSync(s, w);
            && |s'.workers| == |s.workers|
            && (s'.workers[w].Syncing? ==> s.record.Some? && s.record.value.pending == Some(s'.workers[w].update)
                                           && s'.workers[w].work == WorkOf(s.record.value))
            && (s'.record.Some? ==> s'.record.value.pending.None?)
  {
    hide Drain, MergeLastUpdate;
    SendRecord(s);
  }

  lemma Drained(s: State, w: nat)
    requires ChannelsOk(s) && s.current == Some(w) && Quiet(s, s.current)
    ensures w < |s.channels|
    ensures var drained := Drain(s);
            ChannelsOk(drained) && Quiet(drained, drained.current)
  {
    var drained := Drain(s);
    assert forall v :: 0 <= v < |s.workers| && v != w ==> (Idle(s, v) <==> Idle(drained, v));
  }

  lemma AcknowledgeKeeps(s: State, w: nat)
    requires Inv(s) && Enabled(s, Acknowledge(w))
    ensures Inv(Apply(s, Acknowledge(w)))
  {
    ActiveIsCurrent(s, w);
    var r := s.record.value;
    var next := r.(marks := r.marks.(startedTerminating := r.marks.startedTerminating || r.terminating));
    SameStory(r, next, s.epochs);
    SetRecord(s, Some(next));
    hide ChannelsOk, Quiet, StoryOk, AtRest;
  }

  /** A sound record whose worker has finished its sync waits for completeWork. */
  lemma ToCompleting(s: State, w: nat)
    requires Inv(s) && s.current == Some(w) && s.workers[w].Syncing?
    ensures Inv(SetWorker(s, w, Completing))
  {
    OwnWorkerMoves(s, s.record.value, Completing);
  }

  /** The record goes away with its worker. */
  lemma RecordEnds(s: State, w: nat)
    requires Inv(s) && s.current == Some(w)
    ensures Inv(SetWorker(CleanUp(s).(record := None), w, Exited))
    ensures AtRest(s.workers[w]) ==> Inv(CleanUp(s).(record := None))
  {
    forall v | 0 <= v < |s.workers| && v != w
      ensures AtRest(s.workers[v])
    {
      assert Idle(s, v);
    }
  }

  lemma TerminatedEnds(s: State, w: nat)
    requires Inv(s) && s.current == Some(w) && s.workers[w].Syncing? && s.workers[w].work.TerminatedPod?
    ensures Inv(SetWorker(CompleteTerminated(s), w, Exited))
  {
    var r := s.record.value;
    var next := r.(finished := true, working := false);
    SameStory(r, next, s.epochs);
    var s' := SetWorker(CompleteTerminated(s), w, Exited);
    forall v | 0 <= v < |s.workers| && v != w
      ensures Idle(s', v)
    {
      assert Idle(s, v);
    }
    hide StoryOk;
  }

  /** A terminating sync of this record returned without an error. */
  lemma TerminatingCompletes(s: State, w: nat)
    requires Inv(s) && s.current == Some(w) && s.workers[w].Syncing? && s.workers[w].work.TerminatingPod? && !s.workers[w].update.running
    ensures Inv(CompleteTerminating(s, s.workers[w].epoch))
    ensures CompleteTerminating(s, s.workers[w].epoch).workers == s.workers && CompleteTerminating(s, s.workers[w].epoch).current == s.current
  {
    var r := s.record.value;
    var next := r.(terminated := true, story := r.story.(ended := true));
    assert r.terminating && r.started;
    SameStory(r, next, s.epochs);
    hide StoryOk, ChannelsOk, Quiet;
    RequeueKeeps(s, next);
  }

  lemma SyncCompletes(s: State, w: nat)
    requires Inv(s) && s.current == Some(w) && s.workers[w].Syncing? && s.workers[w].work.SyncPod?
    ensures Inv(CompleteSync(s))
    ensures CompleteSync(s).workers == s.workers && CompleteSync(s).current == s.current
  {
    var r := s.record.value;
    var next := r.(terminating := true, marks := r.marks.(startedTerminating := true));
    assert r.started;
    SameStory(r, next, s.epochs);
    hide StoryOk, ChannelsOk, Quiet;
    RequeueKeeps(s, next);
  }

  lemma ReturnKeeps(s: State, w: nat, failed: bool, terminal: bool)
    requires Inv(s) && Enabled(s, Return(w, failed, terminal))
    ensures Inv(Apply(s, Return(w, failed, terminal)))
  {
    ActiveIsCurrent(s, w);
    hide Inv, CompleteSync, CompleteTerminating, CompleteTerminated, Requeue;
    var Syncing(work, u, epoch) := s.workers[w];
    if failed {
      ToCompleting(s, w);
    } else {
      match work {
        case TerminatedPod => TerminatedEnds(s, w);
        case TerminatingPod =>
          if u.running {
            RecordEnds(s, w);
          } else {
            TerminatingCompletes(s, w);
            ToCompleting(CompleteTerminating(s, epoch), w);
          }
        case SyncPod =>
          if terminal {
            SyncCompletes(s, w);
            ToCompleting(CompleteSync(s), w);
          } else {
            ToCompleting(s, w);
          }
      }
    }
  }

  lemma FinishKeeps(s: State, w: nat)
    requires Inv(s) && Enabled(s, Finish(w))
    ensures Inv(Apply(s, Finish(w)))
  {
    ActiveIsCurrent(s, w);
    var r := s.record.value;
    if r.pending.Some? {
      SendKeeps(s);
      OwnWorkerMoves(Send(s), r, Waiting);
    } else {
      var next := r.(working := false);
      SameStory(r, next, s.epochs);
      OwnWorkerMoves(s, next, Waiting);
    }
  }

  lemma SweepKeeps(s: State, orphaned: bool)
    requires Inv(s) && s.record.Some?
    ensures Inv(RemoveTerminatedWorker(s, s.record.value, orphaned))
  {
    var r0 := s.record.value;
    if r0.finished {
      FinishedGoes(s);
    } else if orphaned {
      var r := r0.(marks := r0.marks.(deleted := true));
      SameStory(r0, r, s.epochs);
      if !r.started && !r.observedRuntime {
        RecordEnds(s, s.current.value);
      } else if !r.terminating {
        var grace := if r.active.Some? && r.active.value.pod.Some? then Grace(r.gracePeriod, r.active.value.pod, None) else 1;
        if r.active.Some? && r.active.value.pod.Some? {
          GraceAtLeastOne(r.gracePeriod, r.active.value.pod, None);
        }
        var next := r.(terminating := true, gracePeriod := grace);
        SameStory(r, next, s.epochs);
        hide StoryOk, ChannelsOk, Quiet, Grace;
        RequeueKeeps(s, next);
      } else {
        hide StoryOk, ChannelsOk, Quiet, Grace;
        RequeueKeeps(s, r);
      }
    }
  }

  lemma FinishedGoes(s: State)
    requires Inv(s) && s.record.Some? && s.record.value.finished
    ensures Inv(CleanUp(s).(record := None))
  {
    forall v | 0 <= v < |s.workers|
      ensures AtRest(s.workers[v])
    {
      assert Idle(s, v);
    }
  }

  // ----- whole runs -----

  /** A step that inserts no record while an earlier worker could still touch it. */
  predicate Orderly(s: State, step: Step)
    requires |s.workers| == |s.channels|
  {
    step.Ask? && s.record.None? && Accepted(step.update) ==> Quiet(s, None)
  }

  lemma StepKeeps(s: State, step: Step)
    requires Inv(s) && Enabled(s, step) && Orderly(s, step)
    ensures Inv(Apply(s, step))
  {
    match step {
      case Ask(u, cacheTerminal) => AskKeeps(s, u, cacheTerminal);
      case Receive(w) => ReceiveKeeps(s, w);
      case Leave(w) => LeaveKeeps(s, w);
      case Start(w) => StartKeeps(s, w);
      case Acknowledge(w) => AcknowledgeKeeps(s, w);
      case Return(w, failed, terminal) => ReturnKeeps(s, w, failed, terminal);
      case Finish(w) => FinishKeeps(s, w);
      case Sweep(orphaned) => SweepKeeps(s, orphaned);
    }
  }

  predicate Run(steps: seq<Step>, states: seq<State>) {
    && |states| == |steps| + 1
    && states[0] == State(None, None, [], [], 0)
    && forall i :: 0 <= i < |steps| ==> Enabled(states[i], steps[i]) && states[i + 1] == Apply(states[i], steps[i])
  }

  predicate OrderlyRun(steps: seq<Step>, states: seq<State>)
    requires Run(steps, states)
  {
    forall i :: 0 <= i < |steps| && |states[i].workers| == |states[i].channels| ==> Orderly(states[i], steps[i])
  }

  /** In every state of every run, orderly or not, the work handed out for the record so far is a
      lifecycle word. */
  lemma {:induction false} RunsKeepOrder(steps: seq<Step>, states: seq<State>, n: nat)
    requires Run(steps, states) && n <= |steps|
    ensures Ordered(states[n])
  {
    hide Apply, Enabled, StoryOk;
    if n > 0 {
      RunsKeepOrder(steps, states, n - 1);
      StepKeepsOrder(states[n - 1], steps[n - 1]);
    }
  }

  /** In every state of every orderly run the pod's record, channel and workers are sound. */
  lemma {:induction false} RunsKeep(steps: seq<Step>, states: seq<State>, n: nat)
    requires Run(steps, states) && OrderlyRun(steps, states) && n <= |steps|
    ensures Inv(states[n])
  {
    if n > 0 {
      RunsKeep(steps, states, n - 1);
      hide Apply, Enabled, Orderly;
      StepKeeps(states[n - 1], steps[n - 1]);
    }
  }

  /** At most one worker is past its receive while there is a record. */
  lemma OneWorker(s: State, v: nat, w: nat)
    requires Inv(s) && s.record.Some? && v < |s.workers| && w < |s.workers|
    requires !Idle(s, v) && !Idle(s, w)
    ensures v == w
  {
    BusyIsCurrent(s, v);
    BusyIsCurrent(s, w);
  }

  predicate Graced(s: State) {
    s.record.Some? ==> GraceOk(s.record.value)
  }

  /** In whatever state, orderly or not, the grace period of a record, once set, stays at least 1, and
      grows only on a request for zero seconds together with an override above it. */
  lemma GraceNeverGrows(s: State, step: Step)
    requires Graced(s) && Enabled(s, step)
    ensures Graced(Apply(s, step))
    ensures s.record.Some? && s.record.value.gracePeriod != 0 && Apply(s, step).record.Some? ==>
              var was, now := s.record.value, Apply(s, step).record.value;
              && now.gracePeriod >= 1
              && (now.gracePeriod > was.gracePeriod ==>
                    && step.Ask? && step.update.kill.Some?
                    && step.update.kill.value.override.Some? && step.update.kill.value.override.value > was.gracePeriod
                    && var pod := PodOf(was, step.update, step.update.pod.None?);
                       pod.Some? && pod.value.deletionGrace == Some(0))
  {
    hide Grace, React, MergeLastUpdate, Send, CleanUp, OpenChannel;
    match step {
      case Ask(u0, cacheTerminal) => AskGrace(s, u0, cacheTerminal);
      case Return(w, failed, terminal) => ReturnGrace(s, w, failed, terminal);
      case Start(w) => StartGrace(s, w);
      case Sweep(orphaned) => SweepGrace(s, orphaned);
      case Finish(w) => SendRecord(s);
      case _ =>
    }
  }

  lemma StartGrace(s: State, w: nat)
    requires Graced(s) && w < |s.workers|
    ensures var t := StartPodSync(s, w);
            (s.record.Some? <==> t.record.Some?) && (t.record.Some? ==> t.record.value.gracePeriod == s.record.value.gracePeriod) && Graced(t)
  {
    hide Drain, MergeLastUpdate, PhaseOf, WorkOf;
    SendRecord(s);
  }

  lemma ReturnGrace(s: State, w: nat, failed: bool, terminal: bool)
    requires Graced(s) && w < |s.workers| && s.workers[w].Syncing?
    ensures var t := SyncReturns(s, w, failed, terminal);
            t.record.Some? ==> s.record.Some? && t.record.value.gracePeriod == s.record.value.gracePeriod && GraceOk(t.record.value)
  {
    hide CleanUp, CompleteSync, CompleteTerminating;
    SendRecord(s);
    CompleteGrace(s, s.workers[w].epoch);
  }

  lemma CompleteGrace(s: State, epoch: nat)
    requires Graced(s)
    ensures var t := CompleteSync(s);
            t.record.Some? ==> s.record.Some? && t.record.value.gracePeriod == s.record.value.gracePeriod && GraceOk(t.record.value)
    ensures var t := CompleteTerminating(s, epoch);
            t.record.Some? ==> s.record.Some? && t.record.value.gracePeriod == s.record.value.gracePeriod && GraceOk(t.record.value)
  {
    hide Requeue;
    if s.record.Some? {
      var r := s.record.value;
      RequeueGrace(s, r.(terminating := true, marks := r.marks.(startedTerminating := true)));
      RequeueGrace(s, r.(terminated := true, story := r.story.(ended := r.story.ended || r.story.epoch == epoch)));
    }
  }

  lemma RequeueGrace(s: State, r: Record)
    ensures var t := Requeue(s, r).record; t.Some? && t.value.gracePeriod == r.gracePeriod && t.value.terminating == r.terminating
  {
    SendRecord(s.(record := Some(r.(pending := r.active, working := true))));
    hide Send;
  }

  lemma SweepGrace(s: State, orphaned: bool)
    requires Graced(s) && s.record.Some?
    ensures var t := RemoveTerminatedWorker(s, s.record.value, orphaned);
            && Graced(t)
            && (t.record.Some? && s.record.value.gracePeriod != 0 ==> t.record.value.gracePeriod == s.record.value.gracePeriod)
  {
    hide Grace, CleanUp;
    SendRecord(s);
    var r := s.record.value.(marks := s.record.value.marks.(deleted := true));
    var grace := if r.active.Some? && r.active.value.pod.Some? then Grace(r.gracePeriod, r.active.value.pod, None) else 1;
    if r.active.Some? {
      GraceAtLeastOne(r.gracePeriod, r.active.value.pod, None);
    }
    RequeueGrace(s, r.(terminating := true, gracePeriod := grace));
    RequeueGrace(s, r);
    hide Requeue;
  }

  lemma AskGrace(s: State, u0: Update, cacheTerminal: bool)
    requires Graced(s)
    ensures var t := UpdatePod(s, u0, cacheTerminal);
            && Graced(t)
            && (s.record.Some? && s.record.value.gracePeriod != 0 ==>
                  var was := s.record.value;
                  && t.record.Some? && t.record.value.gracePeriod >= 1
                  && (t.record.value.gracePeriod > was.gracePeriod ==>
                        && u0.kill.Some? && u0.kill.value.override.Some? && u0.kill.value.override.value > was.gracePeriod
                        && var pod := PodOf(was, u0, u0.pod.None?); pod.Some? && pod.value.deletionGrace == Some(0)))
  {
    var isRuntime := u0.pod.None?;
    var u := if isRuntime then u0 else u0.(running := false);
    hide React, Send, OpenChannel;
    if Accepted(u0) {
      if s.record.Some? {
        ReactGraced(s.record.value, u, false, isRuntime);
        if s.record.value.gracePeriod != 0 {
          ReactGrace(s.record.value, u, isRuntime);
        }
        UpdateGrace(s, React(s.record.value, u, false, isRuntime));
      } else {
        var born := u.pod.Some? && u.pod.value.ended && cacheTerminal;
        ReactGraced(Fresh(s.epochs, born), u, true, isRuntime);
        UpdateGrace(s.(epochs := s.epochs + 1), React(Fresh(s.epochs, born), u, true, isRuntime));
      }
    }
  }

  lemma UpdateGrace(s: State, reaction: Reaction)
    ensures var t := UpdateRecord(s, reaction).record;
            t.Some? && t.value.gracePeriod == reaction.record.gracePeriod && t.value.terminating == reaction.record.terminating
  {
    if reaction.Enqueue? {
      QueueForward(s, reaction.record, reaction.update);
    }
    hide Queue;
  }

  lemma ReactGraced(r: Record, u: Update, firstTime: bool, isRuntime: bool)
    requires GraceOk(r)
    ensures GraceOk(React(r, u, firstTime, isRuntime).record)
  {
    hide Grace, PodOf;
    var seen := if isRuntime then r.(observedRuntime := true) else r;
    var pod := PodOf(seen, u, isRuntime);
    var v := if isRuntime && pod.Some? then u.(pod := pod, running := false) else u;
    GraceAtLeastOne(seen.gracePeriod, pod, Some(if v.kill.Some? then v.kill.value else NoKill()));
  }

  /** So in every state of every run a grace period that is set is at least 1. */
  lemma {:induction false} RunsKeepGrace(steps: seq<Step>, states: seq<State>, n: nat)
    requires Run(steps, states) && n <= |steps|
    ensures Graced(states[n])
  {
    hide Apply, Enabled, Graced;
    if n > 0 {
      RunsKeepGrace(steps, states, n - 1);
      GraceNeverGrows(states[n - 1], steps[n - 1]);
    } else {
      NoneGraced(states[0]);
    }
  }

  lemma NoneGraced(s: State)
    requires s.record.None?
    ensures Graced(s)
  {
  }

  lemma ReactGrace(was: Record, u: Update, isRuntime: bool)
    requires was.gracePeriod >= 1 && was.terminating
    ensures var pod, now := PodOf(was, u, isRuntime), React(was, u, false, isRuntime).record;
            && now.gracePeriod >= 1
            && (now.gracePeriod > was.gracePeriod ==>
                  && u.kill.Some? && u.kill.value.override.Some? && u.kill.value.override.value > was.gracePeriod
                  && pod.Some? && pod.value.deletionGrace == Some(0))
  {
    var pod := PodOf(was, u, isRuntime);
    GraceGrowsExactly(was.gracePeriod, pod, Some(if u.kill.Some? then u.kill.value else NoKill()));
    hide Grace;
  }
}
