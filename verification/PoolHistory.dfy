/** The records that the pool's states keep, against the steps of its runs; and who can move when. */
module PoolHistory {
  import opened Common
  import opened PoolProtocol
  import opened PoolSafety
  import opened PoolTheorems

  /** How many of the first k steps satisfy p in the state they are taken from. */
  function Times(r: Run, k: nat, p: (State, Step) -> bool): (n: nat)
    requires k <= |r.steps| && |r.states| == |r.steps| + 1
    ensures n > 0 <==> exists j :: 0 <= j < k && p(r.states[j], r.steps[j])
  {
    if k == 0 then 0 else Times(r, k - 1, p) + (if p(r.states[k - 1], r.steps[k - 1]) then 1 else 0)
  }

  // ---------- signals, joins and accepts ----------

  /** A pthread_kill or pthread_cancel of thread id. */
  predicate Tells(s: State, step: Step, id: nat) {
    match step
    case OfWatcher(ShrinkOne) =>
      s.watcher.Shrinking? && SlotReady(s, s.watcher.down) && s.slots[s.watcher.down] == Some(id)
    case OfMain(SignalOne) => s.main.Signalling? && SlotReady(s, s.main.next) && s.slots[s.main.next] == Some(id)
    case _ => false
  }

  predicate JoinsIt(s: State, step: Step, id: nat) {
    step == OfMain(JoinOne) && s.main.Joining? && SlotReady(s, s.main.next) && s.slots[s.main.next] == Some(id)
  }

  predicate AcceptsBy(step: Step, id: nat) {
    step.OfWorker? && step.id == id && step.act.Accept?
  }

  predicate Told(s: State, id: nat) {
    id < |s.workers| && (s.workers[id].pending || s.workers[id].cancelled)
  }

  function SignalsOf(s: State, id: nat): nat {
    if id < |s.workers| then s.workers[id].signals else 0
  }

  function JoinsOf(s: State, id: nat): nat {
    if id < |s.workers| then s.workers[id].joins else 0
  }

  function LateOfId(s: State, id: nat): nat {
    if id < |s.workers| then s.workers[id].lateAccepts else 0
  }

  lemma WorkerCounts(s: State, i: nat, a: WorkerAction, id: nat)
    requires WorkerEnabled(s, i, a)
    ensures var s' := WorkerStep(s, i, a);
      && SignalsOf(s', id) == SignalsOf(s, id) && JoinsOf(s', id) == JoinsOf(s, id)
      && LateOfId(s', id) == LateOfId(s, id) + (if i == id && a.Accept? && Told(s, id) then 1 else 0)
      && (Told(s', id) <==> Told(s, id))
  {
  }

  lemma WatcherCounts(s: State, a: WatcherAction, id: nat)
    requires WatcherEnabled(s, a)
    ensures var s' := WatcherStep(s, a);
      && SignalsOf(s', id) == SignalsOf(s, id) + (if Tells(s, OfWatcher(a), id) then 1 else 0)
      && JoinsOf(s', id) == JoinsOf(s, id) && LateOfId(s', id) == LateOfId(s, id) && (Told(s, id) ==> Told(s', id))
  {
  }

  lemma MainSignals(s: State, a: MainAction, id: nat)
    requires MainEnabled(s, a)
    ensures SignalsOf(MainStep(s, a), id) == SignalsOf(s, id) + (if Tells(s, OfMain(a), id) then 1 else 0)
  {
  }

  lemma MainJoins(s: State, a: MainAction, id: nat)
    requires MainEnabled(s, a)
    ensures JoinsOf(MainStep(s, a), id) == JoinsOf(s, id) + (if JoinsIt(s, OfMain(a), id) then 1 else 0)
  {
  }

  lemma MainAccepts(s: State, a: MainAction, id: nat)
    requires MainEnabled(s, a)
    ensures LateOfId(MainStep(s, a), id) == LateOfId(s, id) && (Told(s, id) ==> Told(MainStep(s, a), id))
  {
    MainOnlySignals(s, a);
    assert id < |s.workers| ==> OnlyTold(s.workers[id], MainStep(s, a).workers[id], s.installed);
  }

  lemma MainCounts(s: State, a: MainAction, id: nat)
    requires MainEnabled(s, a)
    ensures var s' := MainStep(s, a);
      && SignalsOf(s', id) == SignalsOf(s, id) + (if Tells(s, OfMain(a), id) then 1 else 0)
      && JoinsOf(s', id) == JoinsOf(s, id) + (if JoinsIt(s, OfMain(a), id) then 1 else 0)
      && LateOfId(s', id) == LateOfId(s, id) && (Told(s, id) ==> Told(s', id))
  {
    MainSignals(s, a, id);
    MainJoins(s, a, id);
    MainAccepts(s, a, id);
  }

  lemma StepCounts(s: State, step: Step, id: nat)
    requires Enabled(s, step)
    ensures var s' := Apply(s, step);
      && SignalsOf(s', id) == SignalsOf(s, id) + (if Tells(s, step, id) then 1 else 0)
      && JoinsOf(s', id) == JoinsOf(s, id) + (if JoinsIt(s, step, id) then 1 else 0)
      && LateOfId(s', id) == LateOfId(s, id) + (if AcceptsBy(step, id) && Told(s, id) then 1 else 0)
      && (Told(s, id) ==> Told(s', id))
  {
    match step
    case OfWorker(i, a) => WorkerCounts(s, i, a, id);
    case OfWatcher(a) => WatcherCounts(s, a, id);
    case OfMain(a) => MainCounts(s, a, id);
  }

  /**
   The counters of a thread are the numbers of calls that named it, and of accepts it made after it had been told to
   stop.
   */
  lemma {:induction false} CountsAreHistory(r: Run, maxConnections: nat, k: nat, id: nat)
    requires IsRun(r, maxConnections) && k < |r.states|
    ensures SignalsOf(r.states[k], id) == Times(r, k, (s, step) => Tells(s, step, id))
    ensures JoinsOf(r.states[k], id) == Times(r, k, (s, step) => JoinsIt(s, step, id))
    ensures LateOfId(r.states[k], id) == Times(r, k, (s, step) => AcceptsBy(step, id) && Told(s, id))
  {
    if k == 0 {
    } else {
      CountsAreHistory(r, maxConnections, k - 1, id);
      assert Linked(r, k - 1);
      StepCounts(r.states[k - 1], r.steps[k - 1], id);
    }
  }

  /** How often thread id accepts in the steps from j to k. */
  function AcceptsBetween(r: Run, j: nat, k: nat, id: nat): nat
    requires j <= k <= |r.steps|
  {
    if j == k then 0 else AcceptsBetween(r, j, k - 1, id) + (if AcceptsBy(r.steps[k - 1], id) then 1 else 0)
  }

  lemma {:induction false} AcceptsAreLate(r: Run, maxConnections: nat, j: nat, k: nat, id: nat)
    requires IsRun(r, maxConnections) && j <= k < |r.states| && Told(r.states[j], id)
    ensures Told(r.states[k], id)
    ensures LateOfId(r.states[k], id) == LateOfId(r.states[j], id) + AcceptsBetween(r, j, k, id)
    decreases k
  {
    if j == k {
    } else {
      AcceptsAreLate(r, maxConnections, j, k - 1, id);
      assert Linked(r, k - 1);
      StepCounts(r.states[k - 1], r.steps[k - 1], id);
    }
  }

  /** The thread is on its way from blocking SIGURG to its end, with a signal waiting for it. */
  predicate Doomed(s: State, id: nat) {
    id < |s.workers| && s.workers[id].pending && (Masked(s.workers[id].point) || s.workers[id].point.Exited?)
  }

  lemma DoomedStays(s: State, step: Step, id: nat)
    requires MaskOk(s) && Enabled(s, step) && Doomed(s, id)
    ensures Doomed(Apply(s, step), id) && !AcceptsBy(step, id)
  {
    if step.OfWorker? {
      DoomedWorker(s, step.id, step.act, id);
    } else {
      OthersOnlyTell(s, step);
      assert OnlyTold(s.workers[id], Apply(s, step).workers[id], s.installed);
    }
  }

  lemma DoomedWorker(s: State, i: nat, a: WorkerAction, id: nat)
    requires MaskOk(s) && WorkerEnabled(s, i, a) && Doomed(s, id)
    ensures Doomed(WorkerStep(s, i, a), id) && !(i == id && a.Accept?)
  {
  }

  lemma {:induction false} DoomedNeverAccepts(r: Run, maxConnections: nat, j: nat, k: nat, id: nat)
    requires IsRun(r, maxConnections) && j <= k < |r.states| && Doomed(r.states[j], id)
    ensures Doomed(r.states[k], id) && AcceptsBetween(r, j, k, id) == 0
    decreases k
  {
    if j == k {
    } else {
      DoomedNeverAccepts(r, maxConnections, j, k - 1, id);
      assert MaskOk(r.states[k - 1]) by { RunsAreSafe(r, maxConnections, k - 1); }
      assert Linked(r, k - 1);
      DoomedStays(r.states[k - 1], r.steps[k - 1], id);
    }
  }

  /**
   In the steps of a run: from the moment it has been told to stop, a thread accepts at most one more connection, and
   none if it then has SIGURG blocked and pending, as one that is serving has.
   */
  lemma {:induction false} ToldThreadsAcceptAtMostOnce(r: Run, maxConnections: nat, j: nat, k: nat, id: nat)
    requires IsRun(r, maxConnections) && j <= k < |r.states| && Told(r.states[j], id)
    ensures AcceptsBetween(r, j, k, id) <= 1
    ensures Doomed(r.states[j], id) ==> AcceptsBetween(r, j, k, id) == 0
  {
    AcceptsAreLate(r, maxConnections, j, k, id);
    RunsAreSafe(r, maxConnections, k);
    assert LateOf(r.states[k].workers[id]);
    if Doomed(r.states[j], id) {
      DoomedNeverAccepts(r, maxConnections, j, k, id);
    }
  }

  // ---------- connections ----------

  predicate MasksFor(s: State, step: Step, c: nat) {
    step.OfWorker? && step.act.Mask? && step.id < |s.workers| && s.workers[step.id].conn == c
  }

  predicate FinishesIt(s: State, step: Step, c: nat) {
    step.OfWorker? && step.act.ServeDone? && step.id < |s.workers| && s.workers[step.id].conn == c
  }

  /** A close() of the number that connection c has just then. */
  predicate ClosesIt(s: State, step: Step, c: nat) {
    && step.OfWorker? && step.id < |s.workers| && Closes(s.workers[step.id], step.act)
    && s.workers[step.id].fd in s.open && s.open[s.workers[step.id].fd] == c
  }

  predicate MaskedConn(s: State, c: nat) {
    c < |s.conns| && s.conns[c].masked
  }

  predicate FinishedConn(s: State, c: nat) {
    c < |s.conns| && s.conns[c].finished
  }

  predicate ClosedConn(s: State, c: nat) {
    c < |s.conns| && s.conns[c].closed
  }

  lemma MaskedByWorker(s: State, i: nat, a: WorkerAction, c: nat)
    requires HoldersOk(s) && WorkerEnabled(s, i, a)
    ensures MaskedConn(WorkerStep(s, i, a), c) <==> MaskedConn(s, c) || MasksFor(s, OfWorker(i, a), c)
  {
  }

  lemma FinishedByWorker(s: State, i: nat, a: WorkerAction, c: nat)
    requires HoldersOk(s) && WorkerEnabled(s, i, a)
    ensures FinishedConn(WorkerStep(s, i, a), c) <==> FinishedConn(s, c) || FinishesIt(s, OfWorker(i, a), c)
  {
  }

  lemma ClosedByWorker(s: State, i: nat, a: WorkerAction, c: nat)
    requires ConnsOk(s) && WorkerEnabled(s, i, a)
    ensures ClosedConn(WorkerStep(s, i, a), c) <==> ClosedConn(s, c) || ClosesIt(s, OfWorker(i, a), c)
  {
    var w := s.workers[i];
    assert WorkerStep(s, i, a).conns == ConnsAfter(s, i, a);
    if Closes(w, a) {
      assert w.fd in s.open ==> OpenEntry(s, w.fd);
    }
  }

  lemma FlagsStep(s: State, step: Step, c: nat)
    requires ConnsOk(s) && Enabled(s, step)
    ensures var s' := Apply(s, step);
      && (MaskedConn(s', c) <==> MaskedConn(s, c) || MasksFor(s, step, c))
      && (FinishedConn(s', c) <==> FinishedConn(s, c) || FinishesIt(s, step, c))
      && (ClosedConn(s', c) <==> ClosedConn(s, c) || ClosesIt(s, step, c))
  {
    if step.OfWorker? {
      MaskedByWorker(s, step.id, step.act, c);
      FinishedByWorker(s, step.id, step.act, c);
      ClosedByWorker(s, step.id, step.act, c);
    } else {
      OthersOnlyTell(s, step);
    }
  }

  /** What is on record about a connection is what has been done to it. */
  lemma {:induction false} FlagsAreHistory(r: Run, maxConnections: nat, k: nat, c: nat)
    requires IsRun(r, maxConnections) && k < |r.states|
    ensures MaskedConn(r.states[k], c) <==> exists j :: 0 <= j < k && MasksFor(r.states[j], r.steps[j], c)
    ensures FinishedConn(r.states[k], c) <==> exists j :: 0 <= j < k && FinishesIt(r.states[j], r.steps[j], c)
    ensures ClosedConn(r.states[k], c) <==> exists j :: 0 <= j < k && ClosesIt(r.states[j], r.steps[j], c)
  {
    if k == 0 {
    } else {
      FlagsAreHistory(r, maxConnections, k - 1, c);
      assert ConnsOk(r.states[k - 1]) by { RunsAreSafe(r, maxConnections, k - 1); }
      assert Linked(r, k - 1);
      FlagsStep(r.states[k - 1], r.steps[k - 1], c);
    }
  }

  /**
   In the steps of a run with soft kills only: a worker that has blocked SIGURG for a connection is serving it until it
   ends its handler loop for it.
   */
  lemma BlockedMeansServed(r: Run, maxConnections: nat, j: nat, k: nat, i: nat)
    requires IsRun(r, maxConnections) && j < k < |r.states| && SoftSoFar(r.states[k])
    requires r.steps[j] == OfWorker(i, Mask) && i < |r.states[j].workers|
    ensures var c := r.states[j].workers[i].conn;
      || (exists m :: 0 <= m < k && FinishesIt(r.states[m], r.steps[m], c))
      || (i < |r.states[k].workers| && InService(r.states[k].workers[i].point) && r.states[k].workers[i].conn == c)
  {
    var c := r.states[j].workers[i].conn;
    assert Linked(r, j);
    RunsAreSafe(r, maxConnections, j);
    assert MasksFor(r.states[j], r.steps[j], c);
    FlagsAreHistory(r, maxConnections, k, c);
    OwnersStay(r, maxConnections, j, k, c);
    MaskedConnectionsAreServed(r, maxConnections, k, c);
  }

  lemma {:induction false} OwnersStay(r: Run, maxConnections: nat, j: nat, k: nat, c: nat)
    requires IsRun(r, maxConnections) && j <= k < |r.states| && c < |r.states[j].conns|
    ensures c < |r.states[k].conns| && r.states[k].conns[c].owner == r.states[j].conns[c].owner
    decreases k
  {
    if j == k {
    } else {
      OwnersStay(r, maxConnections, j, k - 1, c);
      assert Linked(r, k - 1);
      OwnerStays(r.states[k - 1], r.steps[k - 1], c);
    }
  }

  lemma OwnerStays(s: State, step: Step, c: nat)
    requires Enabled(s, step) && c < |s.conns|
    ensures c < |Apply(s, step).conns| && Apply(s, step).conns[c].owner == s.conns[c].owner
  {
    if !step.OfWorker? {
      OthersOnlyTell(s, step);
    }
  }

  /** A failed accept leaves nothing for the cleanup handler to close. */
  lemma FailedAcceptLeavesNothing(r: Run, maxConnections: nat, k: nat, i: nat)
    requires IsRun(r, maxConnections) && k < |r.steps| && r.steps[k] == OfWorker(i, AcceptFails)
    ensures i < |r.states[k + 1].workers| && r.states[k + 1].workers[i].point == Accepting
    ensures !Closes(r.states[k + 1].workers[i], SoftExit) && !Closes(r.states[k + 1].workers[i], CancelExit)
  {
    assert Linked(r, k);
  }

  // ---------- who can move ----------

  /** What a worker does next, if it need not wait. */
  function NextMove(p: Point): WorkerAction {
    match p
    case Starting => Install
    case Accepting => AcceptFails
    case Accepted => Mask
    case WantInc => LockInc
    case IncRead => ReadInc
    case IncWrite(_) => WriteInc
    case IncUnlock => UnlockInc
    case Serving => ServeDone
    case Closing => Close
    case WantDec => LockDec
    case DecRead => ReadDec
    case DecWrite(_) => WriteDec
    case DecUnlock => UnlockDec
    case Unmasking => Unmask
    case Exited(_) => SoftExit
  }

  /** What the watcher does next, if it need not wait. */
  function NextWatcherMove(p: Watcher): WatcherAction {
    match p
    case NotCreated => Wake
    case Sleeping => Wake
    case WantShared => LockShared
    case Sampling => Sample
    case ReleaseShared(_) => UnlockShared
    case WantWatcher(_) => LockWatcher
    case Deciding(_) => Decide
    case Growing(next, goal) => if next < goal then GrowOne(true) else GrowDone
    case Shrinking(down, goal) => if down >= goal then ShrinkOne else ShrinkDone
    case ReleaseWatcher => UnlockWatcher
    case Ended => EndWatcher
  }

  /** A live worker waits for nothing but shared_mutex while somebody else has it. */
  lemma WorkersMove(r: Run, maxConnections: nat, k: nat, i: nat) returns (a: WorkerAction)
    requires IsRun(r, maxConnections) && k < |r.states| && !r.states[k].main.Freed?
    requires i < |r.states[k].workers| && !r.states[k].workers[i].point.Exited?
    ensures Enabled(r.states[k], OfWorker(i, a)) || (
      Wants(r.states[k], ByWorker(i)) && r.states[k].shared.Some? && r.states[k].shared != Some(ByWorker(i)))
  {
    RunsAreSafe(r, maxConnections, k);
    a := NextMove(r.states[k].workers[i].point);
  }

  /** The watcher waits for nothing but a mutex that somebody else has. */
  lemma WatcherMoves(r: Run, maxConnections: nat, k: nat) returns (a: WatcherAction)
    requires IsRun(r, maxConnections) && k < |r.states| && !r.states[k].main.Freed?
    requires r.states[k].watcher != NotCreated && r.states[k].watcher != Ended
    ensures var s := r.states[k];
      || Enabled(s, OfWatcher(a))
      || (s.watcher == WantShared && s.shared.Some? && s.shared != Some(ByWatcher))
      || (s.watcher.WantWatcher? && s.watcherMutex.Some? && s.watcherMutex != Some(ByWatcher))
  {
    RunsAreSafe(r, maxConnections, k);
    OwnersNeverWait(r.states[k]);
    a := NextWatcherMove(r.states[k].watcher);
  }

  /** The watcher ends only after the destroyer has cancelled it, which it does once it owns watcher_mutex. */
  ghost predicate CancelOk(s: State) {
    && (s.watcherCancelled <==> s.main.Signalling? || s.main.Joining? || s.main.Freed?)
    && (s.watcher == Ended ==> s.watcherCancelled)
  }

  lemma CancelStep(s: State, step: Step)
    requires CancelOk(s) && Enabled(s, step)
    ensures CancelOk(Apply(s, step))
  {
    match step
    case OfWorker(i, a) => assert Apply(s, step).watcher == s.watcher && Apply(s, step).main == s.main;
    case OfWatcher(a) => CancelWatcherStep(s, a);
    case OfMain(a) => CancelMainStep(s, a);
  }

  lemma CancelWatcherStep(s: State, a: WatcherAction)
    requires CancelOk(s) && WatcherEnabled(s, a)
    ensures CancelOk(WatcherStep(s, a))
  {
  }

  lemma CancelMainStep(s: State, a: MainAction)
    requires CancelOk(s) && MainEnabled(s, a)
    ensures CancelOk(MainStep(s, a))
  {
  }

  lemma {:induction false} WatcherIsCancelled(r: Run, maxConnections: nat, k: nat)
    requires IsRun(r, maxConnections) && k < |r.states|
    ensures CancelOk(r.states[k])
  {
    if k == 0 {
    } else {
      WatcherIsCancelled(r, maxConnections, k - 1);
      assert Linked(r, k - 1);
      CancelStep(r.states[k - 1], r.steps[k - 1]);
    }
  }

  // ---------- the kind of a destruction ----------

  predicate DestroyedAs(p: Main, kind: Kind) {
    match p
    case WantPool(k) => k == kind
    case CancelWatcher(k) => k == kind
    case Signalling(k, _) => k == kind
    case Joining(k, _) => k == kind
    case Freed(k) => k == kind
    case _ => false
  }

  lemma KindStep(s: State, step: Step, kind: Kind)
    requires Enabled(s, step) && DestroyedAs(Apply(s, step).main, kind)
    ensures DestroyedAs(s.main, kind) || step == OfMain(BeginDestroy(kind))
  {
    if step.OfMain? {
      KindMain(s, step.mact, kind);
    } else {
      assert Apply(s, step).main == s.main;
    }
  }

  lemma KindMain(s: State, a: MainAction, kind: Kind)
    requires MainEnabled(s, a) && DestroyedAs(MainStep(s, a).main, kind)
    ensures DestroyedAs(s.main, kind) || a == BeginDestroy(kind)
  {
  }

  /** A destruction is of the kind that was asked for. */
  lemma {:induction false} DestroyKindWasAskedFor(r: Run, maxConnections: nat, k: nat, kind: Kind) returns (j: nat)
    requires IsRun(r, maxConnections) && k < |r.states| && DestroyedAs(r.states[k].main, kind)
    ensures j < k && r.steps[j] == OfMain(BeginDestroy(kind))
  {
    assert k > 0;
    assert Linked(r, k - 1);
    KindStep(r.states[k - 1], r.steps[k - 1], kind);
    if r.steps[k - 1] == OfMain(BeginDestroy(kind)) {
      j := k - 1;
    } else {
      j := DestroyKindWasAskedFor(r, maxConnections, k - 1, kind);
    }
  }

  // ---------- what is up to the clients and to the owner ----------

  /** A worker in accept may get any number that is free, or none; one that serves may get another request, or not. */
  lemma ClientsDecide(r: Run, maxConnections: nat, k: nat, i: nat)
    requires IsRun(r, maxConnections) && k < |r.states| && !r.states[k].main.Freed?
    requires i < |r.states[k].workers|
    ensures var s, p := r.states[k], r.states[k].workers[i].point;
      && (p == Accepting ==> Enabled(s, OfWorker(i, AcceptFails)))
      && (p == Accepting && !s.workers[i].cancelled ==>
            forall fd: nat :: fd !in s.open ==> Enabled(s, OfWorker(i, Accept(fd))))
      && (p == Serving ==>
            && Enabled(s, OfWorker(i, ServeAgain)) && Enabled(s, OfWorker(i, ServeDone))
            && Apply(s, OfWorker(i, ServeAgain)).workers[i] == s.workers[i])
  {
  }

  /** Either kind of destruction may be asked for at any time once the pool runs. */
  lemma OwnerDecides(r: Run, maxConnections: nat, k: nat, kind: Kind)
    requires IsRun(r, maxConnections) && k < |r.states| && r.states[k].main == Running
    ensures Enabled(r.states[k], OfMain(BeginDestroy(kind)))
    ensures Apply(r.states[k], OfMain(BeginDestroy(kind))).main == WantPool(kind)
  {
  }

  lemma SlotsStep(s: State, step: Step)
    requires Enabled(s, step)
    ensures |Apply(s, step).slots| == |s.slots|
  {
    match step
    case OfWorker(i, a) => assert Apply(s, step).slots == s.slots;
    case OfWatcher(a) =>
    case OfMain(a) =>
  }

  /** There is a slot for each of the configured connections, and at least 100. */
  lemma {:induction false} SlotCount(r: Run, maxConnections: nat, k: nat)
    requires IsRun(r, maxConnections) && k < |r.states|
    ensures |r.states[k].slots| == if maxConnections < 100 then 100 else maxConnections
  {
    if k == 0 {
    } else {
      SlotCount(r, maxConnections, k - 1);
      assert Linked(r, k - 1);
      SlotsStep(r.states[k - 1], r.steps[k - 1]);
    }
  }
}
