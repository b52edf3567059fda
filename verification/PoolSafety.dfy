/** The invariants of the thread pool, and their preservation by every step. */
module PoolSafety {
  import opened Common
  import opened PoolSizing
  import opened PoolProtocol

  // ---------- mutexes and the signal mask ----------

  predicate WatcherHoldsPool(p: Watcher) {
    p.Deciding? || p.Growing? || p.Shrinking? || p.ReleaseWatcher?
  }

  predicate MainHoldsPool(p: Main) {
    p.CancelWatcher? || p.Signalling? || p.Joining? || p.Freed?
  }

  predicate WatcherHoldsShared(p: Watcher) {
    p.Sampling? || p.ReleaseShared?
  }

  /** shared_mutex is owned exactly by the thread that is between its lock and its unlock. */
  ghost predicate SharedOk(s: State) {
    && (forall i :: 0 <= i < |s.workers| ==> (Critical(s.workers[i].point) <==> s.shared == Some(ByWorker(i))))
    && (s.shared.Some? && s.shared.value.ByWorker? ==> s.shared.value.id < |s.workers|)
    && (WatcherHoldsShared(s.watcher) <==> s.shared == Some(ByWatcher))
    && s.shared != Some(ByMain)
  }

  /** So is watcher_mutex; only the watcher and the main thread ever take it. */
  ghost predicate PoolMutexOk(s: State) {
    && (WatcherHoldsPool(s.watcher) <==> s.watcherMutex == Some(ByWatcher))
    && (MainHoldsPool(s.main) <==> s.watcherMutex == Some(ByMain))
    && (s.watcherMutex.Some? ==> !s.watcherMutex.value.ByWorker?)
    && (s.main.Creating? <==> s.watcher == NotCreated)
  }

  /** The blocked bit of a running thread follows the program. */
  ghost predicate MaskOk(s: State) {
    forall i :: 0 <= i < |s.workers| && !s.workers[i].point.Exited? ==>
      (s.workers[i].blocked <==> Masked(s.workers[i].point))
  }

  /**
   n_active_threads is, at every instant, exactly the number of workers between their own increment
   and their own decrement, and a value read under the lock is still current when it is written back.
   */
  ghost predicate CounterOk(s: State) {
    && s.nActive == CountIf(s.workers, IsCounted)
    && forall i :: 0 <= i < |s.workers| ==>
         (s.workers[i].point.IncWrite? || s.workers[i].point.DecWrite? ==> s.workers[i].point.seen == s.nActive)
  }

  lemma MaskWorker(s: State, i: nat, a: WorkerAction)
    requires MaskOk(s) && WorkerEnabled(s, i, a)
    ensures MaskOk(WorkerStep(s, i, a))
  {
  }

  /** A worker takes the free mutex, gives its own back, or leaves it alone, and is critical accordingly. */
  lemma SharedLocal(s: State, i: nat, a: WorkerAction)
    requires WorkerEnabled(s, i, a)
    requires Critical(s.workers[i].point) <==> s.shared == Some(ByWorker(i))
    requires !s.workers[i].point.Exited? ==> (s.workers[i].blocked <==> Masked(s.workers[i].point))
    ensures Critical(WorkerAfter(s, i, a).point) <==> SharedAfter(s, i, a) == Some(ByWorker(i))
    ensures SharedAfter(s, i, a) == s.shared
      || (s.shared == None && SharedAfter(s, i, a) == Some(ByWorker(i)))
      || (s.shared == Some(ByWorker(i)) && SharedAfter(s, i, a) == None)
  {
  }

  lemma SharedWorker(s: State, i: nat, a: WorkerAction)
    requires SharedOk(s) && MaskOk(s) && WorkerEnabled(s, i, a)
    ensures SharedOk(WorkerStep(s, i, a))
  {
    SharedLocal(s, i, a);
  }

  /** The counter moves with the worker's standing, and only under the mutex. */
  lemma CounterLocal(s: State, i: nat, a: WorkerAction)
    requires WorkerEnabled(s, i, a)
    requires !s.workers[i].point.Exited? ==> (s.workers[i].blocked <==> Masked(s.workers[i].point))
    requires s.workers[i].point.IncWrite? || s.workers[i].point.DecWrite? ==> s.workers[i].point.seen == s.nActive
    ensures var w, w' := s.workers[i], WorkerAfter(s, i, a);
      && ActiveAfter(s, i, a) + (if IsCounted(w) then 1 else 0) == s.nActive + (if IsCounted(w') then 1 else 0)
      && (w'.point.IncWrite? || w'.point.DecWrite? ==> w'.point.seen == ActiveAfter(s, i, a))
      && (ActiveAfter(s, i, a) != s.nActive ==> Critical(w.point))
  {
  }

  lemma CounterWorker(s: State, i: nat, a: WorkerAction)
    requires CounterOk(s) && SharedOk(s) && MaskOk(s) && WorkerEnabled(s, i, a)
    ensures CounterOk(WorkerStep(s, i, a))
  {
    CountIfUpdate(s.workers, IsCounted, i, WorkerAfter(s, i, a));
    CounterLocal(s, i, a);
  }

  /** A worker before and after steps of others: at most signalled or joined. */
  predicate OnlyTold(w: Worker, w': Worker, installed: bool) {
    && w'.point == w.point && w'.blocked == w.blocked && w'.slot == w.slot && w'.fd == w.fd && w'.conn == w.conn
    && w'.lateAccepts == w.lateAccepts
    && (w.pending ==> w'.pending) && (w.cancelled ==> w'.cancelled)
    && (w'.pending && !w.pending ==> installed && (w'.busy <==> w.busy || w.blocked))
    && (w'.pending == w.pending ==> w'.busy == w.busy)
  }

  /** The workers as the watcher's and the main thread's steps leave them: some told something, perhaps one more. */
  ghost predicate OnlySignalled(s: State, s': State) {
    && |s.workers| <= |s'.workers| <= |s.workers| + 1
    && (forall i :: 0 <= i < |s.workers| ==> OnlyTold(s.workers[i], s'.workers[i], s.installed))
    && (|s'.workers| > |s.workers| ==> s'.workers[|s.workers|] == NewWorker(s'.workers[|s.workers|].slot))
    && s'.nActive == s.nActive && s'.conns == s.conns && s'.open == s.open && s'.installed == s.installed
  }

  lemma WatcherOnlySignals(s: State, a: WatcherAction)
    requires WatcherEnabled(s, a)
    ensures OnlySignalled(s, WatcherStep(s, a))
  {
  }

  lemma ToldOne(s: State, s': State, id: nat, w': Worker)
    requires id < |s.workers| && OnlyTold(s.workers[id], w', s.installed) && s'.workers == s.workers[id := w']
    requires s'.nActive == s.nActive && s'.conns == s.conns && s'.open == s.open && s'.installed == s.installed
    ensures OnlySignalled(s, s')
  {
  }

  lemma SignalOnlyTells(s: State)
    requires MainEnabled(s, SignalOne)
    ensures OnlySignalled(s, MainStep(s, SignalOne))
  {
    var hit, s' := s.slots[s.main.next].value, MainStep(s, SignalOne);
    if s.main.kind == Hard {
      var told := Cancel(s, s.main.next);
      ToldOne(s, told, hit, told.workers[hit]);
      assert s'.workers == told.workers;
    } else {
      var told := Kill(s, s.main.next);
      ToldOne(s, told, hit, told.workers[hit]);
      assert s'.workers == told.workers;
    }
  }

  lemma JoinOnlyTells(s: State)
    requires MainEnabled(s, JoinOne)
    ensures OnlySignalled(s, MainStep(s, JoinOne))
  {
    var hit := s.slots[s.main.next].value;
    ToldOne(s, MainStep(s, JoinOne), hit, MainStep(s, JoinOne).workers[hit]);
  }

  lemma MainOnlySignals(s: State, a: MainAction)
    requires MainEnabled(s, a)
    ensures OnlySignalled(s, MainStep(s, a))
  {
    match a
    case SignalOne => SignalOnlyTells(s);
    case JoinOne => JoinOnlyTells(s);
    case CreateOne =>
    case _ => assert MainStep(s, a).workers == s.workers;
  }

  lemma MaskSignalled(s: State, s': State)
    requires MaskOk(s) && OnlySignalled(s, s')
    ensures MaskOk(s')
  {
  }

  lemma {:induction false} CountSamePoints(ws: seq<Worker>, ws': seq<Worker>)
    requires |ws| == |ws'| && forall i :: 0 <= i < |ws| ==> ws'[i].point == ws[i].point
    ensures CountIf(ws', IsCounted) == CountIf(ws, IsCounted)
  {
    if ws == [] {
    } else {
      CountSamePoints(ws[..|ws| - 1], ws'[..|ws| - 1]);
    }
  }

  lemma CounterSignalled(s: State, s': State)
    requires CounterOk(s) && OnlySignalled(s, s')
    ensures CounterOk(s')
  {
    var n := |s.workers|;
    CountSamePoints(s.workers, s'.workers[..n]);
    if |s'.workers| > n {
      CountIfAppend(s'.workers[..n], IsCounted, s'.workers[n]);
      assert s'.workers[..n] + [s'.workers[n]] == s'.workers;
    } else {
      assert s'.workers[..n] == s'.workers;
    }
  }

  lemma SharedWatcher(s: State, a: WatcherAction)
    requires SharedOk(s) && WatcherEnabled(s, a)
    ensures SharedOk(WatcherStep(s, a))
  {
    WatcherOnlySignals(s, a);
  }

  lemma SharedMain(s: State, a: MainAction)
    requires SharedOk(s) && MainEnabled(s, a) && PoolMutexOk(s)
    ensures SharedOk(MainStep(s, a))
  {
    MainOnlySignals(s, a);
  }

  lemma PoolMutexWatcher(s: State, a: WatcherAction)
    requires PoolMutexOk(s) && WatcherEnabled(s, a)
    ensures PoolMutexOk(WatcherStep(s, a))
  {
  }

  lemma PoolMutexMain(s: State, a: MainAction)
    requires PoolMutexOk(s) && MainEnabled(s, a)
    ensures PoolMutexOk(MainStep(s, a))
  {
  }

  // ---------- slots ----------

  /** The slots [Lo, Hi) are the ones whose worker has not been told to stop. */
  function Lo(s: State): int {
    if s.main.Signalling? then s.main.next
    else if s.main.Joining? || s.main.Freed? then s.nSpawned
    else 0
  }

  function Hi(s: State): int {
    if s.main.Creating? then s.main.next
    else if s.watcher.Growing? then s.watcher.next
    else if s.watcher.Shrinking? then s.watcher.down + 1
    else s.nSpawned
  }

  function JoinedUpTo(s: State): int {
    if s.main.Joining? then s.main.next else if s.main.Freed? then s.nSpawned else 0
  }

  /** Sizes and loop counters stay in bounds, so every access to threads[] is. */
  ghost predicate SizesOk(s: State) {
    && INITIAL_THREADS <= s.nSpawned <= |s.slots|
    && (s.main.Creating? ==> s.main.next <= s.nSpawned)
    && (s.watcher.Growing? ==> s.nSpawned <= s.watcher.next <= s.watcher.goal <= |s.slots|)
    && (s.watcher.Shrinking? ==>
         INITIAL_THREADS <= s.watcher.goal < s.nSpawned && s.watcher.goal <= s.watcher.down + 1 <= s.nSpawned)
    && (s.main.Signalling? || s.main.Joining? ==> s.main.next <= s.nSpawned)
  }

  /** Every slot in use names a thread that was created into that very slot, so no thread is in two slots. */
  ghost predicate SlotsOk(s: State) {
    forall j :: 0 <= j < Hi(s) ==> SlotReady(s, j) && s.workers[s.slots[j].value].slot == j
  }

  /** Thread id is the one its slot names, and the slot is in use. */
  predicate Seated(s: State, id: nat)
    requires id < |s.workers|
  {
    var j := s.workers[id].slot;
    j < Hi(s) && j < |s.slots| && s.slots[j] == Some(id)
  }

  predicate Fresh(w: Worker) {
    w.signals == 0 && !w.pending && !w.cancelled && !w.point.Exited? && w.joins == 0
  }

  /** A seated thread the destroyer has already signalled, and perhaps joined. */
  predicate Dismissed(s: State, w: Worker) {
    && w.signals == 1
    && (s.main.Signalling? || s.main.Joining? || s.main.Freed?)
    && (if s.main.kind == Hard then w.cancelled && !w.pending else !w.cancelled && (s.armed ==> w.pending))
    && (s.main.kind == Soft && w.slot == 0 && !s.armed ==> !w.pending)
    && (if w.slot < JoinedUpTo(s) then w.joins == 1 && w.point.Exited? else w.joins == 0)
  }

  /** A thread _shrink_pool has let go: its SIGURG is pending for ever, whatever becomes of its slot. */
  predicate Retired(w: Worker) {
    w.signals == 1 && w.pending && !w.cancelled && w.joins == 0
  }

  predicate StatusOf(s: State, id: nat)
    requires id < |s.workers|
  {
    var w := s.workers[id];
    && (w.point.Exited? ==> w.pending || w.cancelled)
    && (if !Seated(s, id) then Retired(w) else if w.slot >= Lo(s) then Fresh(w) else Dismissed(s, w))
  }

  ghost predicate StatusOk(s: State) {
    forall id :: 0 <= id < |s.workers| ==> StatusOf(s, id)
  }

  predicate HasRunSigaction(p: Point) {
    p != Starting && (p.Exited? ==> p.counted)
  }

  /** No shrink happens before the handler is installed, so no SIGURG of _shrink_pool is ever lost. */
  ghost predicate InstalledOk(s: State) {
    && (forall i :: 0 <= i < |s.workers| && (HasRunSigaction(s.workers[i].point) || s.workers[i].pending) ==>
         s.installed)
    && (s.watcher.ReleaseShared? || s.watcher.WantWatcher? || s.watcher.Deciding? ==>
          s.watcher.sample > 0 ==> s.installed)
    && (s.watcher.Growing? || s.nSpawned > INITIAL_THREADS || s.armed ==> s.installed)
  }

  /** What a worker's own step leaves alone; it exits only when told to. */
  predicate SameOrders(w: Worker, w': Worker) {
    && w'.slot == w.slot && w'.signals == w.signals && w'.pending == w.pending && w'.cancelled == w.cancelled
    && w'.joins == w.joins
    && (w.point.Exited? ==> w'.point.Exited?)
    && (w'.point.Exited? && !w.point.Exited? ==> w.pending || w.cancelled)
  }

  lemma WorkerKeepsOrders(s: State, i: nat, a: WorkerAction)
    requires WorkerEnabled(s, i, a)
    ensures SameOrders(s.workers[i], WorkerAfter(s, i, a))
  {
  }

  lemma SlotsWorker(s: State, i: nat, a: WorkerAction)
    requires SizesOk(s) && SlotsOk(s) && StatusOk(s) && WorkerEnabled(s, i, a)
    ensures SizesOk(WorkerStep(s, i, a)) && SlotsOk(WorkerStep(s, i, a)) && StatusOk(WorkerStep(s, i, a))
  {
    WorkerKeepsOrders(s, i, a);
    SlotsFrame(s, WorkerStep(s, i, a), i, WorkerAfter(s, i, a));
  }

  lemma SlotsFrame(s: State, s': State, i: nat, w': Worker)
    requires SizesOk(s) && SlotsOk(s) && StatusOk(s)
    requires i < |s.workers| && SameOrders(s.workers[i], w') && s'.workers == s.workers[i := w']
    requires s'.slots == s.slots && s'.nSpawned == s.nSpawned && s'.main == s.main && s'.watcher == s.watcher
      && s'.armed == s.armed
    ensures SizesOk(s') && SlotsOk(s') && StatusOk(s')
  {
    forall id | 0 <= id < |s'.workers|
      ensures StatusOf(s', id)
    {
      assert StatusOf(s, id);
      assert Seated(s', id) == Seated(s, id);
    }
  }

  lemma SizesWatcher(s: State, a: WatcherAction)
    requires SizesOk(s) && WatcherEnabled(s, a)
    requires PoolMutexOk(s)
    ensures SizesOk(WatcherStep(s, a))
  {
  }

  /** Putting a new thread into the slot at Hi seats it there and disturbs nobody. */
  lemma SlotsSpawn(s: State, s': State, j: nat)
    requires SlotsOk(s) && StatusOk(s) && Lo(s) <= j == Hi(s) < |s.slots|
    requires s'.workers == s.workers + [NewWorker(j)] && s'.slots == s.slots[j := Some(|s.workers|)]
    requires Hi(s') == j + 1 && Lo(s') == Lo(s) == 0 && s'.main.Creating? == s.main.Creating?
    requires !s.main.Signalling? && !s.main.Joining? && !s.main.Freed?
    requires !s'.main.Signalling? && !s'.main.Joining? && !s'.main.Freed?
    ensures SlotsOk(s') && StatusOk(s')
  {
    forall id | 0 <= id < |s'.workers|
      ensures StatusOf(s', id)
    {
      if id < |s.workers| {
        assert StatusOf(s, id);
      }
    }
  }

  /** Signalling the last seated thread retires it. */
  lemma SlotsRetire(s: State, s': State)
    requires SlotsOk(s) && StatusOk(s) && s.installed && 0 < Hi(s) <= |s.slots| && Lo(s) == 0
    requires SlotReady(s, Hi(s) - 1) && s'.workers == Kill(s, Hi(s) - 1).workers && s'.slots == s.slots
    requires Hi(s') == Hi(s) - 1 && Lo(s') == 0
    ensures SlotsOk(s') && StatusOk(s')
  {
    var last := s.slots[Hi(s) - 1].value;
    forall id | 0 <= id < |s'.workers|
      ensures StatusOf(s', id)
    {
      assert StatusOf(s, id);
      assert StatusOf(s, last);
    }
  }

  lemma SlotsSame(s: State, s': State)
    requires SlotsOk(s) && StatusOk(s)
    requires s'.workers == s.workers && s'.slots == s.slots && Hi(s') == Hi(s) && Lo(s') == Lo(s) && s'.main == s.main
      && s'.armed == s.armed
    requires s.main.Signalling? || s.main.Joining? || s.main.Freed? ==> s'.nSpawned == s.nSpawned
    ensures SlotsOk(s') && StatusOk(s')
  {
    forall j | 0 <= j < Hi(s')
      ensures SlotReady(s', j) && s'.workers[s'.slots[j].value].slot == j
    {
      assert SlotReady(s, j);
    }
    forall id | 0 <= id < |s'.workers|
      ensures StatusOf(s', id)
    {
      assert StatusOf(s, id);
    }
  }

  lemma SlotsWatcher(s: State, a: WatcherAction)
    requires SizesOk(s) && SlotsOk(s) && StatusOk(s) && InstalledOk(s) && PoolMutexOk(s) && WatcherEnabled(s, a)
    ensures SlotsOk(WatcherStep(s, a)) && StatusOk(WatcherStep(s, a))
  {
    var s' := WatcherStep(s, a);
    if a.GrowOne? && a.ok {
      SlotsSpawn(s, s', s.watcher.next);
    } else if a.ShrinkOne? {
      SlotsRetire(s, s');
    } else {
      SlotsSame(s, s');
    }
  }

  lemma SizesMain(s: State, a: MainAction)
    requires SizesOk(s) && MainEnabled(s, a) && PoolMutexOk(s)
    ensures SizesOk(MainStep(s, a))
  {
  }

  /** The destroyer signals or joins one seated thread; the others keep their standing. */
  lemma SlotsDestroyer(s: State, s': State, k: nat, w': Worker)
    requires SlotsOk(s) && StatusOk(s) && k < Hi(s) == Hi(s') && SlotReady(s, k)
    requires s.main.Signalling? || s.main.Joining?
    requires s'.main.Signalling? || s'.main.Joining?
    requires s'.main.kind == s.main.kind && (s'.armed == s.armed || Lo(s) == 0)
    requires s'.slots == s.slots && s'.workers == s.workers[s.slots[k].value := w'] && w'.slot == k
    requires k <= Lo(s) <= Lo(s') && (Lo(s') == Lo(s) || Lo(s') == k + 1)
    requires JoinedUpTo(s) <= JoinedUpTo(s') <= k + 1 && JoinedUpTo(s) <= k
    requires Lo(s') == Lo(s) || Lo(s) == k
    requires JoinedUpTo(s') == JoinedUpTo(s) || JoinedUpTo(s) == k
    requires StatusOf(s', s.slots[k].value)
    ensures SlotsOk(s') && StatusOk(s')
  {
    forall id | 0 <= id < |s'.workers|
      ensures StatusOf(s', id)
    {
      assert StatusOf(s, id);
    }
  }

  lemma SlotsSignal(s: State)
    requires SizesOk(s) && SlotsOk(s) && StatusOk(s) && InstalledOk(s) && PoolMutexOk(s) && MainEnabled(s, SignalOne)
    ensures SlotsOk(MainStep(s, SignalOne)) && StatusOk(MainStep(s, SignalOne))
  {
    var s' := MainStep(s, SignalOne);
    var hit := s.slots[s.main.next].value;
    assert StatusOf(s, hit);
    SlotsDestroyer(s, s', s.main.next, s'.workers[hit]);
  }

  lemma SlotsJoin(s: State)
    requires SizesOk(s) && SlotsOk(s) && StatusOk(s) && PoolMutexOk(s) && MainEnabled(s, JoinOne)
    ensures SlotsOk(MainStep(s, JoinOne)) && StatusOk(MainStep(s, JoinOne))
  {
    var s' := MainStep(s, JoinOne);
    var hit := s.slots[s.main.next].value;
    assert StatusOf(s, hit);
    SlotsDestroyer(s, s', s.main.next, s'.workers[hit]);
  }

  lemma SlotsMain(s: State, a: MainAction)
    requires SizesOk(s) && SlotsOk(s) && StatusOk(s) && InstalledOk(s) && PoolMutexOk(s) && MainEnabled(s, a)
    ensures SlotsOk(MainStep(s, a)) && StatusOk(MainStep(s, a))
  {
    var s' := MainStep(s, a);
    match a
    case CreateOne => SlotsSpawn(s, s', s.main.next);
    case SignalOne => SlotsSignal(s);
    case JoinOne => SlotsJoin(s);
    case _ =>
      forall id | 0 <= id < |s'.workers|
        ensures StatusOf(s', id)
      {
        assert StatusOf(s, id);
      }
  }

  lemma InstalledWorker(s: State, i: nat, a: WorkerAction)
    requires InstalledOk(s) && WorkerEnabled(s, i, a)
    ensures InstalledOk(WorkerStep(s, i, a))
  {
  }

  lemma InstalledWatcher(s: State, a: WatcherAction)
    requires InstalledOk(s) && CounterOk(s) && SizesOk(s) && WatcherEnabled(s, a)
    ensures InstalledOk(WatcherStep(s, a))
  {
    WatcherOnlySignals(s, a);
    if a.Sample? && s.nActive > 0 {
      CountIfWitness(s.workers, IsCounted);
      var i :| 0 <= i < |s.workers| && IsCounted(s.workers[i]);
      assert HasRunSigaction(s.workers[i].point);
    }
    if a.Decide? {
      SizingInIntegers(s.watcher.sample, s.nSpawned);
    }
  }

  lemma InstalledMain(s: State, a: MainAction)
    requires InstalledOk(s) && MainEnabled(s, a)
    ensures InstalledOk(MainStep(s, a))
  {
    MainOnlySignals(s, a);
  }

  // ---------- what a signalled worker still does ----------

  /**
   A retired worker accepts at most one more connection, and none at all if it was already
   serving one when it was signalled: it then never leaves the masked region again but to exit.
   */
  predicate LateOf(w: Worker) {
    && w.lateAccepts <= 1
    && (!w.pending && !w.cancelled ==> w.lateAccepts == 0)
    && (!w.pending ==> !w.busy)
    && (w.lateAccepts == 1 && !w.cancelled ==> w.point != Starting && w.point != Accepting)
    && (w.busy ==> Masked(w.point) || w.point.Exited?)
    && (w.busy && !w.cancelled ==> w.lateAccepts == 0)
  }

  ghost predicate LateOk(s: State) {
    forall i :: 0 <= i < |s.workers| ==> LateOf(s.workers[i])
  }

  lemma LateWorker(s: State, i: nat, a: WorkerAction)
    requires LateOk(s) && MaskOk(s) && WorkerEnabled(s, i, a)
    ensures LateOk(WorkerStep(s, i, a))
  {
    assert LateOf(s.workers[i]);
    assert LateOf(WorkerAfter(s, i, a));
  }

  lemma LateSignalled(s: State, s': State)
    requires LateOk(s) && MaskOk(s) && OnlySignalled(s, s')
    ensures LateOk(s')
  {
    forall i | 0 <= i < |s'.workers|
      ensures LateOf(s'.workers[i])
    {
      assert i < |s.workers| ==> LateOf(s.workers[i]) && OnlyTold(s.workers[i], s'.workers[i], s.installed);
    }
  }

  // ---------- connections and descriptors ----------

  /** Worker w holds connection c. */
  predicate Holds(w: Worker, c: nat) {
    Holding(w.point) && w.conn == c
  }

  /** A holding worker's connection is its own. */
  ghost predicate HoldersOk(s: State) {
    forall i :: 0 <= i < |s.workers| && Holding(s.workers[i].point) ==>
      s.workers[i].fd >= 0 && s.workers[i].conn < |s.conns| && s.conns[s.workers[i].conn].owner == i
  }

  predicate OpenEntry(s: State, f: int)
    requires f in s.open
  {
    var c := s.open[f];
    && c < |s.conns| && !s.conns[c].closed && s.conns[c].owner < |s.workers|
    && Holds(s.workers[s.conns[c].owner], c) && s.workers[s.conns[c].owner].fd == f
  }

  predicate OpenConn(s: State, c: nat)
    requires c < |s.conns|
  {
    && s.conns[c].owner < |s.workers|
    && var w := s.workers[s.conns[c].owner];
       Holds(w, c) && w.fd in s.open && s.open[w.fd] == c
  }

  /** Open descriptors name open connections held by their owner; every other connection has been closed. */
  ghost predicate ConnsOk(s: State) {
    && HoldersOk(s)
    && (forall f :: f in s.open ==> OpenEntry(s, f))
    && (forall c :: 0 <= c < |s.conns| && !s.conns[c].closed ==> OpenConn(s, c))
  }

  lemma HoldersWorker(s: State, i: nat, a: WorkerAction)
    requires HoldersOk(s) && WorkerEnabled(s, i, a)
    ensures HoldersOk(WorkerStep(s, i, a))
  {
  }

  /** A step that neither accepts nor closes. */
  lemma ConnsQuiet(s: State, i: nat, a: WorkerAction)
    requires ConnsOk(s) && WorkerEnabled(s, i, a) && !a.Accept? && !Closes(s.workers[i], a)
    ensures ConnsOk(WorkerStep(s, i, a))
  {
    HoldersWorker(s, i, a);
    var s' := WorkerStep(s, i, a);
    forall f | f in s'.open ensures OpenEntry(s', f) { assert OpenEntry(s, f); }
    forall c | 0 <= c < |s'.conns| && !s'.conns[c].closed ensures OpenConn(s', c) { assert OpenConn(s, c); }
  }

  lemma ConnsAccept(s: State, i: nat, a: WorkerAction)
    requires ConnsOk(s) && WorkerEnabled(s, i, a) && a.Accept?
    ensures ConnsOk(WorkerStep(s, i, a))
  {
    HoldersWorker(s, i, a);
    var s' := WorkerStep(s, i, a);
    forall f | f in s'.open ensures OpenEntry(s', f) { if f != a.newFd { assert OpenEntry(s, f); } }
    forall c | 0 <= c < |s'.conns| && !s'.conns[c].closed
      ensures OpenConn(s', c)
    {
      assert c < |s.conns| ==> OpenConn(s, c);
    }
  }

  lemma ConnsClose(s: State, i: nat, a: WorkerAction)
    requires ConnsOk(s) && WorkerEnabled(s, i, a) && Closes(s.workers[i], a)
    ensures ConnsOk(WorkerStep(s, i, a))
  {
    HoldersWorker(s, i, a);
    var s' := WorkerStep(s, i, a);
    var fd := s.workers[i].fd;
    if fd in s.open { assert OpenEntry(s, fd); }
    forall f | f in s'.open ensures OpenEntry(s', f) { assert OpenEntry(s, f); }
    forall c | 0 <= c < |s'.conns| && !s'.conns[c].closed ensures OpenConn(s', c) { assert OpenConn(s, c); }
  }

  lemma ConnsWorker(s: State, i: nat, a: WorkerAction)
    requires ConnsOk(s) && WorkerEnabled(s, i, a)
    ensures ConnsOk(WorkerStep(s, i, a))
  {
    if a.Accept? {
      ConnsAccept(s, i, a);
    } else if Closes(s.workers[i], a) {
      ConnsClose(s, i, a);
    } else {
      ConnsQuiet(s, i, a);
    }
  }

  lemma ConnsSignalled(s: State, s': State)
    requires ConnsOk(s) && OnlySignalled(s, s')
    ensures ConnsOk(s')
  {
    forall f | f in s'.open ensures OpenEntry(s', f) { assert OpenEntry(s, f); }
    forall c | 0 <= c < |s'.conns| && !s'.conns[c].closed ensures OpenConn(s', c) { assert OpenConn(s, c); }
  }

  // ---------- service ----------

  /** Once SIGURG was blocked for it, a connection is served to the end, unless its worker is cancelled. */
  predicate ServiceOf(s: State, c: nat)
    requires c < |s.conns|
  {
    s.conns[c].masked && !s.conns[c].finished ==>
      && s.conns[c].owner < |s.workers|
      && var w := s.workers[s.conns[c].owner];
         w.cancelled || (InService(w.point) && w.conn == c)
  }

  ghost predicate ServiceOk(s: State) {
    forall c :: 0 <= c < |s.conns| ==> ServiceOf(s, c)
  }

  lemma ServiceWorker(s: State, i: nat, a: WorkerAction)
    requires ServiceOk(s) && HoldersOk(s) && MaskOk(s) && WorkerEnabled(s, i, a)
    ensures ServiceOk(WorkerStep(s, i, a))
  {
    var s' := WorkerStep(s, i, a);
    forall c | 0 <= c < |s'.conns| ensures ServiceOf(s', c) { if c < |s.conns| { assert ServiceOf(s, c); } }
  }

  lemma ServiceSignalled(s: State, s': State)
    requires ServiceOk(s) && OnlySignalled(s, s')
    ensures ServiceOk(s')
  {
    forall c | 0 <= c < |s'.conns| ensures ServiceOf(s', c) {
      assert ServiceOf(s, c);
      assert s.conns[c].owner < |s.workers| ==>
        OnlyTold(s.workers[s.conns[c].owner], s'.workers[s.conns[c].owner], s.installed);
    }
  }

  // ---------- all of it ----------

  ghost predicate Inv(s: State) {
    && MaskOk(s) && SharedOk(s) && PoolMutexOk(s) && CounterOk(s)
    && SizesOk(s) && SlotsOk(s) && StatusOk(s) && InstalledOk(s)
    && LateOk(s) && ConnsOk(s) && ServiceOk(s)
  }

  lemma InvInit(maxConnections: nat)
    ensures Inv(Init(maxConnections))
  {
  }

  lemma InvWorker(s: State, i: nat, a: WorkerAction)
    requires Inv(s) && WorkerEnabled(s, i, a)
    ensures Inv(WorkerStep(s, i, a))
  {
    MaskWorker(s, i, a);
    SharedWorker(s, i, a);
    CounterWorker(s, i, a);
    SlotsWorker(s, i, a);
    InstalledWorker(s, i, a);
    LateWorker(s, i, a);
    ConnsWorker(s, i, a);
    ServiceWorker(s, i, a);
  }

  lemma InvSignalled(s: State, s': State)
    requires Inv(s) && OnlySignalled(s, s')
    ensures MaskOk(s') && CounterOk(s') && LateOk(s') && ConnsOk(s') && ServiceOk(s')
  {
    MaskSignalled(s, s');
    CounterSignalled(s, s');
    LateSignalled(s, s');
    ConnsSignalled(s, s');
    ServiceSignalled(s, s');
  }

  lemma InvWatcher(s: State, a: WatcherAction)
    requires Inv(s) && WatcherEnabled(s, a)
    ensures Inv(WatcherStep(s, a))
  {
    WatcherOnlySignals(s, a);
    InvSignalled(s, WatcherStep(s, a));
    SharedWatcher(s, a);
    PoolMutexWatcher(s, a);
    SizesWatcher(s, a);
    SlotsWatcher(s, a);
    InstalledWatcher(s, a);
  }

  lemma InvMain(s: State, a: MainAction)
    requires Inv(s) && MainEnabled(s, a)
    ensures Inv(MainStep(s, a))
  {
    MainOnlySignals(s, a);
    InvSignalled(s, MainStep(s, a));
    SharedMain(s, a);
    PoolMutexMain(s, a);
    SizesMain(s, a);
    SlotsMain(s, a);
    InstalledMain(s, a);
  }

  lemma InvStep(s: State, step: Step)
    requires Inv(s) && Enabled(s, step)
    ensures Inv(Apply(s, step))
  {
    match step
    case OfWorker(i, a) => InvWorker(s, i, a);
    case OfWatcher(a) => InvWatcher(s, a);
    case OfMain(a) => InvMain(s, a);
  }

  /** Every state of every run satisfies the invariant. */
  lemma {:induction false} RunsAreSafe(r: Run, maxConnections: nat, k: nat)
    requires IsRun(r, maxConnections) && k < |r.states|
    ensures Inv(r.states[k])
  {
    if k == 0 {
      InvInit(maxConnections);
    } else {
      RunsAreSafe(r, maxConnections, k - 1);
      assert Linked(r, k - 1);
      InvStep(r.states[k - 1], r.steps[k - 1]);
    }
  }
}
