/** What the invariants of the thread pool mean for its users, for every state of every run. */
module PoolTheorems {
  import opened Common
  import opened PoolSizing
  import opened PoolProtocol
  import opened PoolSafety

  /** No hard destruction has been asked for. */
  predicate SoftSoFar(s: State) {
    match s.main
    case WantPool(kind) => kind == Soft
    case CancelWatcher(kind) => kind == Soft
    case Signalling(kind, _) => kind == Soft
    case Joining(kind, _) => kind == Soft
    case Freed(kind) => kind == Soft
    case _ => true
  }

  /** The worker that slot j names. */
  function At(s: State, j: nat): Worker
    requires SlotReady(s, j)
  {
    s.workers[s.slots[j].value]
  }

  /** Some slot in use names thread id. */
  predicate Named(s: State, id: nat) {
    exists j :: 0 <= j < Hi(s) && j < |s.slots| && s.slots[j] == Some(id)
  }

  /**
   Until the destroyer owns watcher_mutex, the slots in use (all nSpawned of them, when no creation
   or shrink is under way) name pairwise distinct threads that are alive and were never told to stop,
   and every other thread ever created has its SIGURG pending or has acted on it.
   */
  lemma SlotsHoldLiveWorkers(r: Run, maxConnections: nat, k: nat)
    requires IsRun(r, maxConnections) && k < |r.states|
    ensures var s := r.states[k];
      && INITIAL_THREADS <= s.nSpawned <= |s.slots|
      && (s.main == Running && !s.watcher.Growing? && !s.watcher.Shrinking? ==> Hi(s) == s.nSpawned)
      && (forall j :: 0 <= j < Hi(s) ==> SlotReady(s, j))
      && (forall i, j :: 0 <= i < j < Hi(s) && j < |s.slots| ==> s.slots[i] != s.slots[j])
      && (!MainHoldsPool(s.main) ==>
            && (forall j :: 0 <= j < Hi(s) ==>
                  !At(s, j).point.Exited? && At(s, j).signals == 0 && !At(s, j).pending && !At(s, j).cancelled)
            && (forall id :: 0 <= id < |s.workers| && !Named(s, id) ==>
                  s.workers[id].signals == 1 && s.workers[id].pending))
  {
    RunsAreSafe(r, maxConnections, k);
    var s := r.states[k];
    forall j | 0 <= j < Hi(s)
      ensures SlotReady(s, j) && At(s, j).slot == j && StatusOf(s, s.slots[j].value)
    {
    }
    forall id | 0 <= id < |s.workers| && !Named(s, id)
      ensures StatusOf(s, id) && !Seated(s, id)
    {
    }
  }

  /** n_active_threads never loses an update: it equals the number of workers between their increment and decrement. */
  lemma ActiveCountIsExact(r: Run, maxConnections: nat, k: nat)
    requires IsRun(r, maxConnections) && k < |r.states|
    ensures var s := r.states[k]; s.nActive == CountIf(s.workers, IsCounted) && 0 <= s.nActive <= |s.workers|
  {
    RunsAreSafe(r, maxConnections, k);
  }

  /** Without hard destruction no thread is ever cancelled. */
  lemma SoftMeansNotCancelled(s: State, id: nat)
    requires Inv(s) && SoftSoFar(s) && id < |s.workers|
    ensures !s.workers[id].cancelled
  {
    assert StatusOf(s, id);
  }

  /** With soft kills only, every connection that SIGURG was blocked for is served until its handler ends it. */
  lemma MaskedConnectionsAreServed(r: Run, maxConnections: nat, k: nat, c: nat)
    requires IsRun(r, maxConnections) && k < |r.states| && SoftSoFar(r.states[k])
    requires c < |r.states[k].conns| && r.states[k].conns[c].masked
    ensures var s := r.states[k];
      || s.conns[c].finished
      || (s.conns[c].owner < |s.workers| && InService(s.workers[s.conns[c].owner].point)
           && s.workers[s.conns[c].owner].conn == c)
  {
    RunsAreSafe(r, maxConnections, k);
    var s := r.states[k];
    assert ServiceOf(s, c);
    if s.conns[c].owner < |s.workers| {
      SoftMeansNotCancelled(s, s.conns[c].owner);
    }
  }

  /** With soft kills only, a thread can end only outside the masked region, or in unblocking SIGURG. */
  lemma NoExitWhileMasked(r: Run, maxConnections: nat, k: nat, i: nat)
    requires IsRun(r, maxConnections) && k < |r.steps| && SoftSoFar(r.states[k])
    requires i < |r.states[k].workers| && i < |r.states[k + 1].workers|
    requires !r.states[k].workers[i].point.Exited? && r.states[k + 1].workers[i].point.Exited?
    ensures !Masked(r.states[k].workers[i].point) || r.states[k].workers[i].point == Unmasking
  {
    RunsAreSafe(r, maxConnections, k);
    var s := r.states[k];
    SoftMeansNotCancelled(s, i);
    assert Linked(r, k);
    if r.steps[k].OfWorker? {
      ExitsUnmasked(s, r.steps[k].id, r.steps[k].act);
    } else {
      OthersKeepPoints(s, r.steps[k], i);
    }
  }

  lemma OthersKeepPoints(s: State, step: Step, i: nat)
    requires Enabled(s, step) && !step.OfWorker? && i < |s.workers|
    ensures i < |Apply(s, step).workers| && Apply(s, step).workers[i].point == s.workers[i].point
  {
    OthersOnlyTell(s, step);
    assert OnlyTold(s.workers[i], Apply(s, step).workers[i], s.installed);
  }

  lemma OthersOnlyTell(s: State, step: Step)
    requires Enabled(s, step) && !step.OfWorker?
    ensures OnlySignalled(s, Apply(s, step))
  {
    match step
    case OfWatcher(a) => WatcherOnlySignals(s, a);
    case OfMain(a) => MainOnlySignals(s, a);
  }

  lemma ExitsUnmasked(s: State, i: nat, a: WorkerAction)
    requires MaskOk(s) && WorkerEnabled(s, i, a) && !s.workers[i].cancelled
    ensures WorkerAfter(s, i, a).point.Exited? && !s.workers[i].point.Exited? ==>
      !Masked(s.workers[i].point) || s.workers[i].point == Unmasking
  {
  }

  /** A connection its worker no longer holds, in particular one whose worker has exited, has been closed. */
  lemma LeftConnectionsAreClosed(r: Run, maxConnections: nat, k: nat, c: nat)
    requires IsRun(r, maxConnections) && k < |r.states| && c < |r.states[k].conns|
    requires var s := r.states[k];
      s.conns[c].owner < |s.workers| ==>
        s.workers[s.conns[c].owner].point.Exited? || !Holds(s.workers[s.conns[c].owner], c)
    ensures r.states[k].conns[c].closed
  {
    RunsAreSafe(r, maxConnections, k);
    assert !r.states[k].conns[c].closed ==> OpenConn(r.states[k], c);
  }

  /**
   A worker accepts at most one connection after it has been signalled, none if it was serving one
   then, and after that one connection it is gone: it never waits in accept again. A cancelled worker
   accepts at most one more, too.
   */
  lemma RetiredWorkersAcceptAtMostOnce(r: Run, maxConnections: nat, k: nat, i: nat)
    requires IsRun(r, maxConnections) && k < |r.states| && i < |r.states[k].workers|
    ensures var w := r.states[k].workers[i];
      && w.lateAccepts <= 1
      && (w.lateAccepts == 1 ==> w.pending || w.cancelled)
      && (!w.cancelled && w.busy ==> w.lateAccepts == 0 && (Masked(w.point) || w.point.Exited?))
      && (!w.cancelled && w.lateAccepts == 1 ==> w.point != Accepting)
  {
    RunsAreSafe(r, maxConnections, k);
    assert LateOf(r.states[k].workers[i]);
  }

  /**
   A deliverable signal, or a cancellation of a thread in accept, is acted on before the thread does anything else.
   */
  predicate Prompt(s: State, step: Step) {
    step.OfWorker? && step.id < |s.workers| && DueToExit(s.workers[step.id]) ==>
      step.act.SoftExit? || step.act.CancelExit?
  }

  predicate DueToExit(w: Worker) {
    (w.pending && !w.blocked) || (w.cancelled && w.point == Accepting)
  }

  ghost predicate NoneLate(s: State) {
    forall i :: 0 <= i < |s.workers| ==> s.workers[i].lateAccepts == 0
  }

  lemma PromptWorker(s: State, i: nat, a: WorkerAction)
    requires WorkerEnabled(s, i, a) && s.workers[i].lateAccepts == 0 && Prompt(s, OfWorker(i, a))
    requires !s.workers[i].point.Exited? ==> (s.workers[i].blocked <==> Masked(s.workers[i].point))
    ensures WorkerAfter(s, i, a).lateAccepts == 0
  {
  }

  lemma NoneLateSignalled(s: State, s': State)
    requires NoneLate(s) && OnlySignalled(s, s')
    ensures NoneLate(s')
  {
    forall i | 0 <= i < |s'.workers|
      ensures s'.workers[i].lateAccepts == 0
    {
      assert i < |s.workers| ==> OnlyTold(s.workers[i], s'.workers[i], s.installed);
    }
  }

  lemma PromptStep(s: State, step: Step)
    requires MaskOk(s) && NoneLate(s) && Enabled(s, step) && Prompt(s, step)
    ensures NoneLate(Apply(s, step))
  {
    if step.OfWorker? {
      PromptWorker(s, step.id, step.act);
    } else {
      OthersOnlyTell(s, step);
      NoneLateSignalled(s, Apply(s, step));
    }
  }

  /** If signals and cancellations act promptly, no worker accepts anything once it has been told to stop. */
  lemma {:induction false} PromptlyRetiredAcceptNothing(r: Run, maxConnections: nat, k: nat)
    requires IsRun(r, maxConnections) && k < |r.states|
    requires forall j :: 0 <= j < k ==> Prompt(r.states[j], r.steps[j])
    ensures forall i :: 0 <= i < |r.states[k].workers| ==> r.states[k].workers[i].lateAccepts == 0
  {
    if k == 0 {
    } else {
      PromptlyRetiredAcceptNothing(r, maxConnections, k - 1);
      RunsAreSafe(r, maxConnections, k - 1);
      assert Linked(r, k - 1);
      PromptStep(r.states[k - 1], r.steps[k - 1]);
    }
  }

  // ---------- mutual exclusion, no circular wait ----------

  /** No thread ever owns both mutexes, and no exited thread owns one. */
  lemma NoThreadHoldsBoth(r: Run, maxConnections: nat, k: nat, t: Agent)
    requires IsRun(r, maxConnections) && k < |r.states|
    ensures var s := r.states[k];
      && !(s.shared == Some(t) && s.watcherMutex == Some(t))
      && (s.shared == Some(t) && t.ByWorker? ==> t.id < |s.workers| && !s.workers[t.id].point.Exited?)
      && (s.shared == Some(t) && t.ByWatcher? ==> s.watcher != Ended)
      && (s.watcherMutex == Some(t) ==> !t.ByWorker?)
  {
    RunsAreSafe(r, maxConnections, k);
  }

  /** The next action of a worker that owns shared_mutex: it never waits for anything before the unlock. */
  function TowardsUnlock(p: Point): WorkerAction
    requires Critical(p)
  {
    match p
    case IncRead => ReadInc
    case IncWrite(_) => WriteInc
    case IncUnlock => UnlockInc
    case DecRead => ReadDec
    case DecWrite(_) => WriteDec
    case DecUnlock => UnlockDec
  }

  /** The watcher's next action while it owns a mutex. */
  function TowardsRelease(p: Watcher): WatcherAction
    requires WatcherHoldsPool(p) || WatcherHoldsShared(p)
  {
    match p
    case Sampling => Sample
    case ReleaseShared(_) => UnlockShared
    case Deciding(_) => Decide
    case Growing(next, goal) => if next < goal then GrowOne(true) else GrowDone
    case Shrinking(down, goal) => if down >= goal then ShrinkOne else ShrinkDone
    case ReleaseWatcher => UnlockWatcher
  }

  /**
   Whoever owns a mutex can take a step right now (the destroyer, which keeps watcher_mutex for good,
   waits for nothing but the exit of the threads it joins), so there is no circular wait.
   */
  lemma OwnersNeverWait(s: State)
    requires Inv(s) && !s.main.Freed?
    ensures s.shared.Some? && s.shared.value.ByWorker? ==>
      var i := s.shared.value.id;
      i < |s.workers| && Critical(s.workers[i].point) && Enabled(s, OfWorker(i, TowardsUnlock(s.workers[i].point)))
    ensures s.shared == Some(ByWatcher) ==>
      WatcherHoldsShared(s.watcher) && Enabled(s, OfWatcher(TowardsRelease(s.watcher)))
    ensures s.watcherMutex == Some(ByWatcher) ==>
      WatcherHoldsPool(s.watcher) && Enabled(s, OfWatcher(TowardsRelease(s.watcher)))
    ensures s.main.CancelWatcher? ==> Enabled(s, OfMain(StopWatcher))
    ensures s.main.Signalling? ==> Enabled(s, OfMain(if s.main.next < s.nSpawned then SignalOne else SignalsDone))
  {
  }

  /** Thread t is waiting for a mutex. */
  predicate Wants(s: State, t: Agent) {
    match t
    case ByWorker(i) => i < |s.workers| && (s.workers[i].point == WantInc || s.workers[i].point == WantDec)
    case ByWatcher => s.watcher == WantShared || s.watcher.WantWatcher?
    case ByMain => s.main.WantPool?
  }

  /**
   In every run, no owner of a mutex waits for one, and each owner can take its own next step towards the release. The
   destroyer, which never gives watcher_mutex back, waits only in a join, and only for the exit of the thread it names.
   */
  lemma NoCircularWait(r: Run, maxConnections: nat, k: nat)
    requires IsRun(r, maxConnections) && k < |r.states| && !r.states[k].main.Freed?
    ensures var s := r.states[k];
      && (forall t :: s.shared == Some(t) || s.watcherMutex == Some(t) ==> !Wants(s, t))
      && (forall i: nat :: s.shared == Some(ByWorker(i)) ==>
            && i < |s.workers| && Critical(s.workers[i].point)
            && Enabled(s, OfWorker(i, TowardsUnlock(s.workers[i].point))))
      && (s.shared == Some(ByWatcher) || s.watcherMutex == Some(ByWatcher) ==>
            (WatcherHoldsPool(s.watcher) || WatcherHoldsShared(s.watcher))
              && Enabled(s, OfWatcher(TowardsRelease(s.watcher))))
      && s.shared != Some(ByMain)
      && (s.watcherMutex == Some(ByMain) && !(exists a :: Enabled(s, OfMain(a))) ==>
            s.main.Joining? && SlotReady(s, s.main.next) && !At(s, s.main.next).point.Exited?)
  {
    RunsAreSafe(r, maxConnections, k);
    var s := r.states[k];
    OwnersNeverWait(s);
    if s.watcherMutex == Some(ByMain) && !(exists a :: Enabled(s, OfMain(a))) {
      assert !Enabled(s, OfMain(StopWatcher)) && !Enabled(s, OfMain(SignalOne)) && !Enabled(s, OfMain(SignalsDone));
      assert !Enabled(s, OfMain(JoinOne)) && !Enabled(s, OfMain(Free));
    }
  }
}
