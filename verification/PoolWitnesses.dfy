/** Runs in which the pool does less than one would expect of it. */
module PoolWitnesses {
  import opened Common
  import opened PoolSizing
  import opened PoolProtocol
  import opened PoolSafety
  import opened PoolShutdown

  function Extend(r: Run, step: Step): Run
    requires |r.states| > 0 && Enabled(Last(r), step)
  {
    Run(r.states + [Apply(Last(r), step)], r.steps + [step])
  }

  /** r continued by one step. */
  lemma ExtendKeeps(r: Run, step: Step)
    requires IsRun(r, INITIAL_THREADS) && Enabled(Last(r), step)
    ensures IsRun(Extend(r, step), INITIAL_THREADS) && Last(Extend(r, step)) == Apply(Last(r), step)
  {
    var r' := Extend(r, step);
    forall k | 0 <= k < |r'.steps|
      ensures Linked(r', k)
    {
      assert k < |r.steps| ==> Linked(r, k);
    }
  }

  /** The creation loop of thread_pool_ini after k threads, none of which has run yet. */
  function CreatedSoFar(k: nat): State
    requires k <= INITIAL_THREADS
  {
    Init(INITIAL_THREADS).(workers := seq(k, i requires 0 <= i => NewWorker(i)),
                           slots := seq(INITIAL_THREADS, i requires 0 <= i => if i < k then Some(i) else None),
                           main := Creating(k))
  }

  lemma {:induction false} CreateAll(k: nat) returns (r: Run)
    requires k <= INITIAL_THREADS
    ensures IsRun(r, INITIAL_THREADS) && Last(r) == CreatedSoFar(k)
  {
    if k == 0 {
      r := Run([Init(INITIAL_THREADS)], []);
      assert CreatedSoFar(0).slots == Init(INITIAL_THREADS).slots;
      assert CreatedSoFar(0) == Init(INITIAL_THREADS);
    } else {
      r := CreateAll(k - 1);
      var s := Last(r);
      assert Enabled(s, OfMain(CreateOne));
      ExtendKeeps(r, OfMain(CreateOne));
      r := Extend(r, OfMain(CreateOne));
      assert Last(r).workers == CreatedSoFar(k).workers;
      assert Last(r).slots == CreatedSoFar(k).slots;
    }
  }

  /** thread_pool_ini has just returned, and no worker has run yet. */
  lemma JustStarted() returns (r: Run)
    ensures IsRun(r, INITIAL_THREADS)
    ensures Last(r) == CreatedSoFar(INITIAL_THREADS).(main := Running, watcher := Sleeping)
  {
    r := CreateAll(INITIAL_THREADS);
    assert Enabled(Last(r), OfMain(CreateWatcher));
    ExtendKeeps(r, OfMain(CreateWatcher));
    r := Extend(r, OfMain(CreateWatcher));
  }

  /** From Running to the first signal of a soft destruction. */
  lemma BeginSoftDestroy(r: Run) returns (r': Run)
    requires IsRun(r, INITIAL_THREADS) && Last(r).main == Running && Last(r).watcherMutex == None
    ensures IsRun(r', INITIAL_THREADS)
    ensures Last(r') == Last(r).(main := Signalling(Soft, 0), watcherMutex := Some(ByMain), watcherCancelled := true)
  {
    ExtendKeeps(r, OfMain(BeginDestroy(Soft)));
    r' := Extend(r, OfMain(BeginDestroy(Soft)));
    assert Enabled(Last(r'), OfMain(LockPool));
    ExtendKeeps(r', OfMain(LockPool));
    r' := Extend(r', OfMain(LockPool));
    assert Enabled(Last(r'), OfMain(StopWatcher));
    ExtendKeeps(r', OfMain(StopWatcher));
    r' := Extend(r', OfMain(StopWatcher));
  }

  lemma {:induction false} SignalInVain(r: Run, k: nat) returns (r': Run)
    requires IsRun(r, INITIAL_THREADS) && Last(r).main == Signalling(Soft, 0) && !Last(r).installed
    requires k <= INITIAL_THREADS == Last(r).nSpawned == |Last(r).slots|
    requires forall j :: 0 <= j < INITIAL_THREADS ==> SlotReady(Last(r), j)
    requires forall i :: 0 <= i < |Last(r).workers| ==>
      !Last(r).workers[i].pending && Last(r).workers[i].point == Starting
    ensures IsRun(r', INITIAL_THREADS) && Last(r').main == Signalling(Soft, k) && !Last(r').installed
    ensures Last(r').slots == Last(r).slots && Last(r').nSpawned == INITIAL_THREADS
      && |Last(r').workers| == |Last(r).workers|
    ensures Last(r').watcher == Last(r).watcher
    ensures forall i :: 0 <= i < |Last(r').workers| ==>
      !Last(r').workers[i].pending && Last(r').workers[i].point == Starting
        && Last(r').workers[i].slot == Last(r).workers[i].slot
  {
    if k == 0 {
      return r;
    }
    r' := SignalInVain(r, k - 1);
    assert SlotReady(Last(r), k - 1);
    ExtendKeeps(r', OfMain(SignalOne));
    r' := Extend(r', OfMain(SignalOne));
  }

  /**
   Soft destruction that starts before any worker has installed the SIGURG handler never completes:
   there is a run of the pool in which all its signals are discarded.
   */
  lemma SoftDestroyCanHang() returns (r: Run)
    ensures IsRun(r, INITIAL_THREADS) && !Last(r).armed && LostSignal(Last(r), 0)
  {
    r := JustStarted();
    r := BeginSoftDestroy(r);
    r := SignalInVain(r, INITIAL_THREADS);
    assert Enabled(Last(r), OfMain(SignalsDone));
    ExtendKeeps(r, OfMain(SignalsDone));
    r := Extend(r, OfMain(SignalsDone));
    RunsAreSafe(r, INITIAL_THREADS, |r.steps|);
    assert SlotReady(Last(r), 0) && StatusOf(Last(r), 0);
  }

  // ---------- the descriptor number that is not reset ----------

  /** The action closes a connection accepted by another worker. */
  predicate ClosesForeign(s: State, i: nat, a: WorkerAction)
    requires WorkerEnabled(s, i, a)
  {
    var w := s.workers[i];
    Closes(w, a) && w.fd in s.open && s.open[w.fd] < |s.conns| && s.conns[s.open[w.fd]].owner != i
  }

  /**
   Exactly when a close() of a worker hits somebody else's connection: its number is open
   although the worker holds no connection, or only one that has already been closed under it.
   */
  lemma ForeignCloseIff(r: Run, maxConnections: nat, k: nat, i: nat, a: WorkerAction)
    requires IsRun(r, maxConnections) && k < |r.states| && WorkerEnabled(r.states[k], i, a)
      && Closes(r.states[k].workers[i], a)
    ensures var s, w := r.states[k], r.states[k].workers[i];
      && (Holding(w.point) ==> w.conn < |s.conns|)
      && (ClosesForeign(s, i, a) <==> w.fd in s.open && (!Holding(w.point) || s.conns[w.conn].closed))
  {
    RunsAreSafe(r, maxConnections, k);
    var s, w := r.states[k], r.states[k].workers[i];
    if w.fd in s.open {
      assert OpenEntry(s, w.fd);
      assert Holding(w.point) && !s.conns[w.conn].closed ==> OpenConn(s, w.conn);
    }
  }

  /**
   A worker is serving somebody else's client exactly when its own connection has been closed under it and the number
   reused.
   */
  lemma ServesForeignIff(r: Run, maxConnections: nat, k: nat, i: nat)
    requires IsRun(r, maxConnections) && k < |r.states| && i < |r.states[k].workers|
    requires Holding(r.states[k].workers[i].point) && r.states[k].workers[i].fd in r.states[k].open
    ensures var s, w := r.states[k], r.states[k].workers[i];
      w.conn < |s.conns| && (s.open[w.fd] != w.conn <==> s.conns[w.conn].closed)
  {
    RunsAreSafe(r, maxConnections, k);
    var s, w := r.states[k], r.states[k].workers[i];
    assert OpenEntry(s, w.fd);
    assert !s.conns[w.conn].closed ==> OpenConn(s, w.conn);
  }

  /** Worker i takes action a at the end of the run. */
  lemma Act(r: Run, i: nat, a: WorkerAction) returns (r': Run)
    requires IsRun(r, INITIAL_THREADS) && WorkerEnabled(Last(r), i, a) && !Last(r).main.Freed?
    ensures IsRun(r', INITIAL_THREADS) && Last(r') == WorkerStep(Last(r), i, a)
  {
    ExtendKeeps(r, OfWorker(i, a));
    r' := Extend(r, OfWorker(i, a));
  }

  function With(s: State, i: nat, p: Point, shared: Option<Agent>, nActive: int): State
    requires i < |s.workers|
  {
    s.(workers := s.workers[i := s.workers[i].(point := p)], shared := shared, nActive := nActive)
  }

  /** An action around shared_mutex changes the worker's point, the mutex and the counter, and nothing else. */
  lemma {:induction false} LockAct(r: Run, s: State, i: nat, a: WorkerAction, p: Point, shared: Option<Agent>,
                                   nActive: int) returns (r': Run)
    requires IsRun(r, INITIAL_THREADS) && i < |s.workers| && !s.main.Freed?
    requires i < |Last(r).workers| && WorkerEnabled(Last(r), i, a)
    requires Last(r) == With(s, i, Last(r).workers[i].point, Last(r).shared, Last(r).nActive)
    requires !a.Accept? && !a.Mask? && !a.ServeDone? && !a.Install? && !Closes(Last(r).workers[i], a)
    requires WorkerAfter(Last(r), i, a) == Last(r).workers[i].(point := p)
    requires SharedAfter(Last(r), i, a) == shared && ActiveAfter(Last(r), i, a) == nActive
    ensures IsRun(r', INITIAL_THREADS) && Last(r') == With(s, i, p, shared, nActive)
  {
    r' := Act(r, i, a);
    assert Last(r').workers == s.workers[i := s.workers[i].(point := p)];
  }

  lemma LockAndRead(r: Run, s: State, i: nat, inc: bool) returns (r': Run)
    requires IsRun(r, INITIAL_THREADS) && i < |s.workers| && !s.main.Freed?
    requires Last(r) == With(s, i, if inc then WantInc else WantDec, None, s.nActive)
    ensures IsRun(r', INITIAL_THREADS)
    ensures Last(r') ==
      With(s, i, if inc then IncWrite(s.nActive) else DecWrite(s.nActive), Some(ByWorker(i)), s.nActive)
  {
    if inc {
      r' := LockAct(r, s, i, LockInc, IncRead, Some(ByWorker(i)), s.nActive);
      r' := LockAct(r', s, i, ReadInc, IncWrite(s.nActive), Some(ByWorker(i)), s.nActive);
    } else {
      r' := LockAct(r, s, i, LockDec, DecRead, Some(ByWorker(i)), s.nActive);
      r' := LockAct(r', s, i, ReadDec, DecWrite(s.nActive), Some(ByWorker(i)), s.nActive);
    }
  }

  lemma WriteAndUnlock(r: Run, s: State, i: nat, inc: bool) returns (r': Run)
    requires IsRun(r, INITIAL_THREADS) && i < |s.workers| && !s.main.Freed?
    requires Last(r) ==
      With(s, i, if inc then IncWrite(s.nActive) else DecWrite(s.nActive), Some(ByWorker(i)), s.nActive)
    ensures IsRun(r', INITIAL_THREADS)
    ensures Last(r') ==
      With(s, i, if inc then Serving else Unmasking, None, if inc then s.nActive + 1 else s.nActive - 1)
  {
    if inc {
      r' := LockAct(r, s, i, WriteInc, IncUnlock, Some(ByWorker(i)), s.nActive + 1);
      r' := LockAct(r', s, i, UnlockInc, Serving, None, s.nActive + 1);
    } else {
      r' := LockAct(r, s, i, WriteDec, DecUnlock, Some(ByWorker(i)), s.nActive - 1);
      r' := LockAct(r', s, i, UnlockDec, Unmasking, None, s.nActive - 1);
    }
  }

  /** The locked increment (or decrement) of n_active_threads, with nobody interfering. */
  lemma LockedUpdate(r: Run, i: nat, inc: bool) returns (r': Run)
    requires IsRun(r, INITIAL_THREADS) && i < |Last(r).workers| && !Last(r).main.Freed?
    requires Last(r).workers[i].point == (if inc then WantInc else WantDec) && Last(r).shared == None
    ensures IsRun(r', INITIAL_THREADS)
    ensures Last(r') ==
      With(Last(r), i, if inc then Serving else Unmasking, None, Last(r).nActive + (if inc then 1 else -1))
  {
    var s := Last(r);
    assert s.workers[i := s.workers[i]] == s.workers;
    r' := LockAndRead(r, s, i, inc);
    r' := WriteAndUnlock(r', s, i, inc);
  }

  /** A worker that has not run yet accepts a connection and blocks SIGURG. */
  lemma AcceptFirst(r: Run, i: nat, fd: nat) returns (r': Run)
    requires IsRun(r, INITIAL_THREADS) && i < |Last(r).workers| && !Last(r).main.Freed?
    requires Last(r).workers[i] == NewWorker(i) && fd !in Last(r).open
    ensures IsRun(r', INITIAL_THREADS)
    ensures Last(r') == Last(r).(
      workers := Last(r).workers[
        i := NewWorker(i).(point := WantInc, blocked := true, fd := fd, conn := |Last(r).conns|)],
      installed := true, open := Last(r).open[fd as int := |Last(r).conns|],
      conns := Last(r).conns + [Conn(i, true, false, false)])
  {
    var s := Last(r);
    r' := Act(r, i, Install);
    r' := Act(r', i, Accept(fd));
    r' := Act(r', i, Mask);
    assert Last(r').conns == s.conns + [Conn(i, true, false, false)];
    assert Last(r').workers ==
      s.workers[i := NewWorker(i).(point := WantInc, blocked := true, fd := fd, conn := |s.conns|)];
  }

  /** From accept to the handler loop, with nobody interfering. */
  lemma StartServing(r: Run, i: nat, fd: nat) returns (r': Run)
    requires IsRun(r, INITIAL_THREADS) && i < |Last(r).workers| && !Last(r).main.Freed?
    requires Last(r).workers[i] == NewWorker(i) && Last(r).shared == None && fd !in Last(r).open
    ensures IsRun(r', INITIAL_THREADS)
    ensures Last(r') == Last(r).(
      workers := Last(r).workers[
        i := NewWorker(i).(point := Serving, blocked := true, fd := fd, conn := |Last(r).conns|)],
      nActive := Last(r).nActive + 1, installed := true,
      open := Last(r).open[fd as int := |Last(r).conns|], conns := Last(r).conns + [Conn(i, true, false, false)])
  {
    var s := Last(r);
    r' := AcceptFirst(r, i, fd);
    r' := LockedUpdate(r', i, true);
    assert Last(r').workers ==
      s.workers[i := NewWorker(i).(point := Serving, blocked := true, fd := fd, conn := |s.conns|)];
  }

  /** Worker 0 is serving connection 0 on descriptor 7 when the soft destroyer signals it, and finishes serving. */
  lemma SignalledWhileServing() returns (r: Run)
    ensures IsRun(r, INITIAL_THREADS) && !Last(r).main.Freed?
    ensures var s := Last(r);
      && |s.workers| == INITIAL_THREADS && s.shared == None && s.open == map[] && s.conns == [Conn(0, true, true, true)]
      && s.workers[0].point == WantDec && s.workers[0].pending && s.workers[0].fd == 7
      && s.workers[1] == NewWorker(1) && s.workers[2] == NewWorker(2)
  {
    r := JustStarted();
    r := StartServing(r, 0, 7);
    r := BeginSoftDestroy(r);
    assert Enabled(Last(r), OfMain(SignalOne));
    ExtendKeeps(r, OfMain(SignalOne));
    r := Extend(r, OfMain(SignalOne));
    r := Act(r, 0, ServeDone);
    r := Act(r, 0, Close);
  }

  /**
   client_fd keeps its number after the connection is closed: in this run worker 1 is serving a later
   connection on the same number when worker 0 exits, whose cleanup handler then closes that connection.
   */
  lemma StaleDescriptorIsClosed() returns (r: Run)
    ensures IsRun(r, INITIAL_THREADS) && WorkerEnabled(Last(r), 0, Unmask) && !Last(r).main.Freed?
    ensures var s, s' := Last(r), WorkerStep(Last(r), 0, Unmask);
      && |s.workers| > 2 && |s.conns| == |s'.conns| == 2 && s'.open == map[] && s'.shared == None
      && s.workers[1].point == Serving && s.workers[1].conn == 1 && !s.conns[1].closed
      && s'.workers[1].point == Serving && s'.workers[1].conn == 1 && s'.workers[1].fd == 7 && s'.conns[1].closed
      && s'.workers[2] == NewWorker(2)
  {
    r := SignalledWhileServing();
    r := StartServing(r, 1, 7);
    r := LockedUpdate(r, 0, false);
  }

  /**
   One accept later the same number is given out again: worker 1 now reads from and writes to the client of worker 2.
   */
  lemma StaleDescriptorIsServed() returns (r: Run)
    ensures IsRun(r, INITIAL_THREADS)
    ensures var s := Last(r);
      && |s.workers| > 2 && |s.conns| == 3 && 7 in s.open && s.open[7] == 2 && s.conns[2].owner == 2
      && s.workers[1].point == Serving && s.workers[1].conn == 1 && s.workers[1].fd == 7
      && s.workers[2].point == Serving && s.workers[2].conn == 2 && s.workers[2].fd == 7
  {
    r := StaleDescriptorIsClosed();
    r := Act(r, 0, Unmask);
    r := StartServing(r, 2, 7);
  }
}
