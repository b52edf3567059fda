/** _thread_pool_destroy: what it freezes, whom it signals and joins, and when it finishes. */
module PoolShutdown {
  import opened Common
  import opened PoolProtocol
  import opened PoolSafety
  import opened PoolTheorems

  // ---------- the pool is frozen ----------

  lemma FrozenStep(s: State, step: Step)
    requires PoolMutexOk(s) && MainHoldsPool(s.main) && Enabled(s, step)
    ensures var s' := Apply(s, step); s'.slots == s.slots && s'.nSpawned == s.nSpawned && MainHoldsPool(s'.main)
  {
    match step
    case OfWorker(i, a) => assert Apply(s, step).main == s.main;
    case OfWatcher(a) => FrozenWatcher(s, a);
    case OfMain(a) => FrozenMain(s, a);
  }

  lemma FrozenWatcher(s: State, a: WatcherAction)
    requires PoolMutexOk(s) && MainHoldsPool(s.main) && WatcherEnabled(s, a)
    ensures var s' := WatcherStep(s, a); s'.slots == s.slots && s'.nSpawned == s.nSpawned && s'.main == s.main
    ensures WatcherStep(s, a).workers == s.workers
  {
  }

  lemma FrozenMain(s: State, a: MainAction)
    requires MainHoldsPool(s.main) && MainEnabled(s, a)
    ensures var s' := MainStep(s, a); s'.slots == s.slots && s'.nSpawned == s.nSpawned && MainHoldsPool(s'.main)
  {
  }

  lemma FrozenNext(r: Run, maxConnections: nat, k: nat)
    requires IsRun(r, maxConnections) && k < |r.steps| && MainHoldsPool(r.states[k].main)
    ensures r.states[k + 1].slots == r.states[k].slots && r.states[k + 1].nSpawned == r.states[k].nSpawned
    ensures MainHoldsPool(r.states[k + 1].main)
  {
    assert PoolMutexOk(r.states[k]) by { RunsAreSafe(r, maxConnections, k); }
    assert Linked(r, k);
    FrozenStep(r.states[k], r.steps[k]);
  }

  /** Once the destroyer owns watcher_mutex, n_spawned_threads and threads[] never change again. */
  lemma {:induction false} FrozenAfterLock(r: Run, maxConnections: nat, j: nat, k: nat)
    requires IsRun(r, maxConnections) && j <= k < |r.states| && MainHoldsPool(r.states[j].main)
    ensures r.states[k].slots == r.states[j].slots && r.states[k].nSpawned == r.states[j].nSpawned
    ensures MainHoldsPool(r.states[k].main)
    decreases k
  {
    if j == k {
    } else {
      FrozenAfterLock(r, maxConnections, j, k - 1);
      FrozenNext(r, maxConnections, k - 1);
    }
  }

  /**
   When the pool is freed, every thread in a slot has been signalled once, joined once and has exited;
   every other thread was signalled once, by a shrink, and never joined: if it still runs, its SIGURG is
   pending and it accepts at most one more connection.
   */
  lemma EveryoneDismissedOnce(r: Run, maxConnections: nat, k: nat, id: nat)
    requires IsRun(r, maxConnections) && k < |r.states| && r.states[k].main.Freed? && id < |r.states[k].workers|
    ensures var s := r.states[k];
      && s.workers[id].signals == 1
      && (Named(s, id) ==> s.workers[id].joins == 1 && s.workers[id].point.Exited?)
      && (!Named(s, id) ==> s.workers[id].joins == 0 && s.workers[id].pending && s.workers[id].lateAccepts <= 1)
      && !s.watcher.Deciding? && !s.watcher.Growing? && !s.watcher.Shrinking?
  {
    RunsAreSafe(r, maxConnections, k);
    var s := r.states[k];
    assert StatusOf(s, id) && LateOf(s.workers[id]);
    if Seated(s, id) {
      assert s.slots[s.workers[id].slot] == Some(id);
    }
    if Named(s, id) {
      var j :| 0 <= j < Hi(s) && j < |s.slots| && s.slots[j] == Some(id);
      assert SlotReady(s, j);
    }
  }

  // ---------- destruction finishes ----------

  /** The destroyer is joining, and every thread has its SIGURG pending or has been cancelled. */
  ghost predicate AllTold(s: State) {
    && s.main.Joining?
    && forall id :: 0 <= id < |s.workers| ==> s.workers[id].pending || s.workers[id].cancelled
  }

  /**
   When the destroyer joins, every thread has been told: always in a hard destruction, and in a soft one
   whenever the handler was installed before the destroyer began to signal.
   */
  lemma ArmedMeansAllTold(r: Run, maxConnections: nat, k: nat)
    requires IsRun(r, maxConnections) && k < |r.states| && r.states[k].main.Joining?
    requires r.states[k].main.kind == Hard || r.states[k].armed
    ensures AllTold(r.states[k])
  {
    RunsAreSafe(r, maxConnections, k);
    forall id | 0 <= id < |r.states[k].workers|
      ensures r.states[k].workers[id].pending || r.states[k].workers[id].cancelled
    {
      assert StatusOf(r.states[k], id);
    }
  }

  /**
   How far a point is from the exit, for a thread that leaves through accept or one that leaves in unblocking SIGURG.
   */
  function PointRank(p: Point, leavesInAccept: bool): nat {
    match p
    case Starting => 15
    case Accepting => if leavesInAccept then 1 else 14
    case Accepted => 13
    case WantInc => 12
    case IncRead => 11
    case IncWrite(_) => 10
    case IncUnlock => 9
    case Serving => 8
    case Closing => 7
    case WantDec => 6
    case DecRead => 5
    case DecWrite(_) => 4
    case DecUnlock => 3
    case Unmasking => 2
    case Exited(_) => 0
  }

  /** How far a worker is from its exit; a cancelled one may have an accept left. */
  function WorkerRank(w: Worker): nat {
    PointRank(w.point, w.cancelled) + (if w.cancelled && w.lateAccepts == 0 && !w.point.Exited? then 15 else 0)
  }

  function WatcherRank(p: Watcher): nat {
    match p
    case Sleeping => 4
    case WantShared => 3
    case Sampling => 2
    case ReleaseShared(_) => 1
    case _ => 0
  }

  function MainRank(s: State): nat {
    if s.main.Joining? && s.main.next <= s.nSpawned then s.nSpawned - s.main.next + 1 else 0
  }

  function Rank(s: State): nat {
    SumOf(s.workers, WorkerRank) + WatcherRank(s.watcher) + MainRank(s)
  }

  /** Every step but another request on a served connection and a failed accept. */
  predicate Productive(step: Step) {
    step.OfWorker? ==> !step.act.ServeAgain? && !step.act.AcceptFails?
  }

  lemma WorkerRankDrops(s: State, i: nat, a: WorkerAction)
    requires WorkerEnabled(s, i, a) && (s.workers[i].pending || s.workers[i].cancelled)
    ensures Productive(OfWorker(i, a)) ==> WorkerRank(WorkerAfter(s, i, a)) < WorkerRank(s.workers[i])
    ensures !Productive(OfWorker(i, a)) ==> WorkerRank(WorkerAfter(s, i, a)) == WorkerRank(s.workers[i])
  {
  }

  lemma RankWorker(s: State, i: nat, a: WorkerAction)
    requires AllTold(s) && WorkerEnabled(s, i, a)
    ensures AllTold(WorkerStep(s, i, a))
    ensures Productive(OfWorker(i, a)) ==> Rank(WorkerStep(s, i, a)) < Rank(s)
    ensures !Productive(OfWorker(i, a)) ==> Rank(WorkerStep(s, i, a)) == Rank(s)
  {
    WorkerRankDrops(s, i, a);
    WorkerKeepsOrders(s, i, a);
    SumOfUpdate(s.workers, WorkerRank, i, WorkerAfter(s, i, a));
  }

  lemma RankWatcher(s: State, a: WatcherAction)
    requires PoolMutexOk(s) && AllTold(s) && WatcherEnabled(s, a)
    ensures AllTold(WatcherStep(s, a)) && Rank(WatcherStep(s, a)) < Rank(s)
  {
    FrozenWatcher(s, a);
  }

  lemma RankMain(s: State, a: MainAction)
    requires SizesOk(s) && AllTold(s) && MainEnabled(s, a)
    ensures AllTold(MainStep(s, a)) || MainStep(s, a).main.Freed?
    ensures Rank(MainStep(s, a)) < Rank(s)
  {
    if a.JoinOne? {
      var id := s.slots[s.main.next].value;
      SumOfUpdate(s.workers, WorkerRank, id, MainStep(s, a).workers[id]);
    }
  }

  /** From then on every step but those two brings the end nearer, and those two take nothing back. */
  lemma RankDecreases(s: State, step: Step)
    requires Inv(s) && AllTold(s) && Enabled(s, step)
    ensures AllTold(Apply(s, step)) || Apply(s, step).main.Freed?
    ensures Productive(step) ==> Rank(Apply(s, step)) < Rank(s)
    ensures !Productive(step) ==> Rank(Apply(s, step)) == Rank(s)
  {
    if step.OfWorker? {
      RankWorker(s, step.id, step.act);
    } else if step.OfWatcher? {
      RankWatcher(s, step.wact);
    } else {
      RankMain(s, step.mact);
    }
  }

  /** A step that waits for a client, or is the end of what a client asked for. */
  predicate ClientStep(step: Step) {
    step.OfWorker? && (step.act.Accept? || step.act.AcceptFails? || step.act.ServeAgain? || step.act.ServeDone?)
  }

  /** All that could still happen is up to the clients. */
  ghost predicate Quiet(s: State) {
    forall step :: !ClientStep(step) ==> !Enabled(s, step)
  }

  /** The thread to be joined next is serving a connection. */
  predicate AwaitsServing(s: State) {
    s.main.Joining? && s.main.next < s.nSpawned && SlotReady(s, s.main.next) && At(s, s.main.next).point == Serving
  }

  /** What a worker does next on its way out, if it need not wait for the lock. */
  function WayOut(w: Worker): WorkerAction
    requires (w.pending || w.cancelled) && !w.point.Exited? && !w.point.WantInc? && !w.point.WantDec?
  {
    if w.pending && !w.blocked then SoftExit
    else match w.point
      case Starting => Install
      case Accepting => CancelExit
      case Accepted => Mask
      case Serving => CancelExit
      case Closing => Close
      case Unmasking => Unmask
      case p => if Critical(p) then TowardsUnlock(p) else SoftExit
  }

  lemma WayOutIsOpen(s: State, id: nat)
    requires id < |s.workers| && var w := s.workers[id];
      && (w.pending || w.cancelled) && !w.point.Exited? && !w.point.WantInc? && !w.point.WantDec?
      && (w.blocked <==> Masked(w.point)) && (w.point == Serving ==> w.cancelled)
    ensures WorkerEnabled(s, id, WayOut(s.workers[id])) && !ClientStep(OfWorker(id, WayOut(s.workers[id])))
  {
  }

  /**
   The destroyer never waits for anybody but, in a soft destruction, the client of the very thread it is about to
   join: otherwise some thread can take a step that has nothing to do with a client.
   */
  lemma DestroyerIsNeverStuck(s: State) returns (step: Step)
    requires Inv(s) && AllTold(s)
    requires s.main.kind == Soft ==> !AwaitsServing(s)
    ensures Enabled(s, step) && !ClientStep(step)
  {
    if s.main.next >= s.nSpawned {
      return OfMain(Free);
    }
    var id := s.slots[s.main.next].value;
    if s.workers[id].point.Exited? {
      return OfMain(JoinOne);
    }
    if s.workers[id].point.WantInc? || s.workers[id].point.WantDec? {
      OwnersNeverWait(s);
      if s.shared == None {
        return OfWorker(id, if s.workers[id].point.WantInc? then LockInc else LockDec);
      } else if s.shared == Some(ByWatcher) {
        return OfWatcher(TowardsRelease(s.watcher));
      } else {
        return OfWorker(s.shared.value.id, TowardsUnlock(s.workers[s.shared.value.id].point));
      }
    }
    assert StatusOf(s, id);
    WayOutIsOpen(s, id);
    return OfWorker(id, WayOut(s.workers[id]));
  }

  function ProductiveCount(steps: seq<Step>): (n: nat)
    ensures n <= |steps|
  {
    CountIf(steps, Productive)
  }

  /** An execution that starts with everybody told. */
  ghost predicate IsEnding(r: Run) {
    IsExecution(r) && Inv(r.states[0]) && AllTold(r.states[0])
  }

  /** Joining, or done with it. */
  predicate EndingAs(s: State, kind: Kind) {
    s.main == Freed(kind) || (s.main.Joining? && s.main.kind == kind)
  }

  lemma KindStays(s: State, step: Step, kind: Kind)
    requires PoolMutexOk(s) && Enabled(s, step) && EndingAs(s, kind)
    ensures EndingAs(Apply(s, step), kind)
  {
    match step
    case OfWorker(i, a) => assert Apply(s, step).main == s.main;
    case OfWatcher(a) => FrozenWatcher(s, a);
    case OfMain(a) => assert a.JoinOne? || a.Free?;
  }

  /** Such an execution has at most Rank productive steps in all. */
  lemma {:induction false} EndingIsBounded(r: Run, k: nat)
    requires IsEnding(r) && k < |r.states|
    ensures Inv(r.states[k]) && (AllTold(r.states[k]) || r.states[k].main.Freed?)
    ensures EndingAs(r.states[k], r.states[0].main.kind)
    ensures ProductiveCount(r.steps[..k]) + Rank(r.states[k]) <= Rank(r.states[0])
  {
    if k == 0 {
    } else {
      EndingIsBounded(r, k - 1);
      assert Linked(r, k - 1);
      KindStays(r.states[k - 1], r.steps[k - 1], r.states[0].main.kind);
      InvStep(r.states[k - 1], r.steps[k - 1]);
      RankDecreases(r.states[k - 1], r.steps[k - 1]);
      assert r.steps[..k][..k - 1] == r.steps[..k - 1];
    }
  }

  /**
   Destruction finishes: after at most Rank productive steps, and once only clients can move, the pool has been
   freed, except that a soft destroyer waits while the thread it is about to join is serving.
   */
  lemma DestroyFinishes(r: Run)
    requires IsEnding(r) && Quiet(Last(r))
    ensures ProductiveCount(r.steps) <= Rank(r.states[0])
    ensures Last(r).main.Freed? <==> !(r.states[0].main.kind == Soft && AwaitsServing(Last(r)))
  {
    EndingIsBounded(r, |r.steps|);
    assert r.steps[..|r.steps|] == r.steps;
    var s := Last(r);
    if !s.main.Freed? && !(s.main.kind == Soft && AwaitsServing(s)) {
      var step := DestroyerIsNeverStuck(s);
    }
  }

  // ---------- and when it cannot finish ----------

  /** A SIGURG of the soft destroyer was discarded: thread id still awaits its join but was never told to stop. */
  predicate LostSignal(s: State, id: nat) {
    && s.main.Joining? && s.main.kind == Soft
    && id < |s.workers| && Seated(s, id) && s.main.next <= s.workers[id].slot
    && !s.workers[id].pending && !s.workers[id].point.Exited?
  }

  lemma LostWorker(s: State, i: nat, a: WorkerAction, id: nat)
    requires Inv(s) && LostSignal(s, id) && WorkerEnabled(s, i, a)
    ensures LostSignal(WorkerStep(s, i, a), id)
  {
    assert StatusOf(s, id);
    WorkerKeepsOrders(s, i, a);
  }

  lemma LostOthers(s: State, step: Step, id: nat)
    requires Inv(s) && LostSignal(s, id) && Enabled(s, step) && !step.OfWorker?
    ensures LostSignal(Apply(s, step), id)
  {
    match step
    case OfWatcher(a) => FrozenWatcher(s, a);
    case OfMain(a) => LostMain(s, a, id);
  }

  lemma LostMain(s: State, a: MainAction, id: nat)
    requires PoolMutexOk(s) && SlotsOk(s) && LostSignal(s, id) && MainEnabled(s, a)
    ensures LostSignal(MainStep(s, a), id)
  {
    assert a.JoinOne? || a.Free?;
  }

  /** Then the destruction never completes, whatever the threads and the clients do. */
  lemma {:induction false} LostSignalHangs(r: Run, k: nat, id: nat)
    requires IsExecution(r) && Inv(r.states[0]) && LostSignal(r.states[0], id) && k < |r.states|
    ensures Inv(r.states[k]) && LostSignal(r.states[k], id) && !r.states[k].main.Freed?
  {
    if k == 0 {
    } else {
      LostSignalHangs(r, k - 1, id);
      assert Linked(r, k - 1);
      InvStep(r.states[k - 1], r.steps[k - 1]);
      if r.steps[k - 1].OfWorker? {
        LostWorker(r.states[k - 1], r.steps[k - 1].id, r.steps[k - 1].act, id);
      } else {
        LostOthers(r.states[k - 1], r.steps[k - 1], id);
      }
    }
  }

  /**
   While the soft destroyer joins, every signal has arrived unless one was lost, and that was decided at the first one.
   */
  lemma ToldOrLost(r: Run, maxConnections: nat, k: nat)
    requires IsRun(r, maxConnections) && k < |r.states| && r.states[k].main.Joining? && r.states[k].main.kind == Soft
    ensures AllTold(r.states[k]) <==> forall id :: !LostSignal(r.states[k], id)
    ensures AllTold(r.states[k]) <==> r.states[k].armed
  {
    RunsAreSafe(r, maxConnections, k);
    var s := r.states[k];
    forall id | 0 <= id < |s.workers|
      ensures !s.workers[id].cancelled && (!s.workers[id].pending ==> LostSignal(s, id))
    {
      assert StatusOf(s, id);
    }
    if s.armed {
      ArmedMeansAllTold(r, maxConnections, k);
    } else {
      assert SlotReady(s, 0) && StatusOf(s, s.slots[0].value);
    }
  }

  /** The rest of a run from state j on. */
  lemma Suffix(r: Run, maxConnections: nat, j: nat) returns (t: Run)
    requires IsRun(r, maxConnections) && j < |r.states|
    ensures t == Run(r.states[j..], r.steps[j..]) && IsExecution(t) && Inv(t.states[0]) && Last(t) == Last(r)
  {
    RunsAreSafe(r, maxConnections, j);
    t := Run(r.states[j..], r.steps[j..]);
    forall k | 0 <= k < |t.steps|
      ensures Linked(t, k)
    {
      assert Linked(r, j + k);
      assert t.states[k] == r.states[j + k] && t.states[k + 1] == r.states[j + k + 1];
    }
  }

  /** The destroyer is past its first signal. */
  predicate PastFirst(p: Main) {
    (p.Signalling? && p.next > 0) || p.Joining? || p.Freed?
  }

  lemma OnlyMainMovesMain(s: State, step: Step)
    requires Enabled(s, step) && !step.OfMain?
    ensures Apply(s, step).main == s.main && Apply(s, step).armed == s.armed
  {
  }

  /** Nothing changes the kind of a destruction, nor what it found installed at its first signal. */
  lemma StaysPastFirst(s: State, step: Step)
    requires Enabled(s, step) && PastFirst(s.main)
    ensures var s' := Apply(s, step); PastFirst(s'.main) && s'.main.kind == s.main.kind && s'.armed == s.armed
  {
    if !step.OfMain? {
      OnlyMainMovesMain(s, step);
    } else {
      var a := step.mact;
      assert a.SignalOne? || a.SignalsDone? || a.JoinOne? || a.Free?;
    }
  }

  lemma PassesFirst(s: State, step: Step)
    requires SizesOk(s) && Enabled(s, step) && !PastFirst(s.main) && PastFirst(Apply(s, step).main)
    ensures var s' := Apply(s, step);
      step == OfMain(SignalOne) && s.main == Signalling(s'.main.kind, 0) && s'.armed == s.installed
  {
    if !step.OfMain? {
      OnlyMainMovesMain(s, step);
    }
  }

  /** Every destruction that has got past its signals sent a first one, and `armed` tells what was installed then. */
  lemma {:induction false} FirstSignal(r: Run, maxConnections: nat, j: nat) returns (k: nat)
    requires IsRun(r, maxConnections) && j < |r.states| && PastFirst(r.states[j].main)
    ensures k < j && r.states[k].main == Signalling(r.states[j].main.kind, 0) && r.steps[k] == OfMain(SignalOne)
    ensures r.states[k].installed == r.states[j].armed
  {
    assert j > 0;
    var s, step := r.states[j - 1], r.steps[j - 1];
    assert Linked(r, j - 1);
    if PastFirst(s.main) {
      StaysPastFirst(s, step);
      k := FirstSignal(r, maxConnections, j - 1);
    } else {
      assert SizesOk(s) by { RunsAreSafe(r, maxConnections, j - 1); }
      PassesFirst(s, step);
      k := j - 1;
    }
  }

  /**
   What becomes of any run whose soft destroyer has reached its joins is decided at its first signal. If no thread had
   installed the handler by then, the signal is lost and the pool is never freed. If one had, all signals arrive, only
   Rank productive steps are left, and once only clients can move the pool has been freed, unless the thread to be
   joined is still serving one.
   */
  lemma SoftDestroyOutcome(r: Run, maxConnections: nat, j: nat) returns (k: nat)
    requires IsRun(r, maxConnections) && j < |r.states| && r.states[j].main.Joining? && r.states[j].main.kind == Soft
    ensures k < j && r.states[k].main == Signalling(Soft, 0) && r.steps[k] == OfMain(SignalOne)
    ensures !r.states[k].installed <==> exists id :: LostSignal(r.states[j], id)
    ensures !r.states[k].installed ==> !Last(r).main.Freed?
    ensures r.states[k].installed ==>
      && ProductiveCount(r.steps[j..]) <= Rank(r.states[j])
      && (Quiet(Last(r)) ==> (Last(r).main.Freed? <==> !AwaitsServing(Last(r))))
  {
    k := FirstSignal(r, maxConnections, j);
    ToldOrLost(r, maxConnections, j);
    var t := Suffix(r, maxConnections, j);
    if AllTold(r.states[j]) {
      EndingIsBounded(t, |t.steps|);
      assert t.steps[..|t.steps|] == t.steps;
      if Quiet(Last(r)) {
        DestroyFinishes(t);
      }
    } else {
      var id :| LostSignal(r.states[j], id);
      LostSignalHangs(t, |t.steps|, id);
    }
  }

  /**
   A run whose hard destroyer has reached its joins has only Rank productive steps left, and once only clients
   can move it has freed the pool: it waits for no client, not even for one that is being served.
   */
  lemma HardDestroyOutcome(r: Run, maxConnections: nat, j: nat)
    requires IsRun(r, maxConnections) && j < |r.states| && r.states[j].main.Joining? && r.states[j].main.kind == Hard
    ensures ProductiveCount(r.steps[j..]) <= Rank(r.states[j])
    ensures Quiet(Last(r)) ==> Last(r).main.Freed?
  {
    ArmedMeansAllTold(r, maxConnections, j);
    var t := Suffix(r, maxConnections, j);
    EndingIsBounded(t, |t.steps|);
    assert t.steps[..|t.steps|] == t.steps;
    if Quiet(Last(r)) {
      DestroyFinishes(t);
    }
  }
}
