/**
 The dynamic thread pool as a transition system: worker threads, the watcher that grows and
 shrinks the pool, and the main thread that creates and destroys it, interleaving in any order.

 The increment and the decrement of n_active_threads are split into a read and a write.
 SIGURG has a pending and a blocked bit per thread; a deliverable signal may be acted upon at any
 later moment, except that unblocking it never returns before it has been delivered.
 SIGURG sent while no thread has installed the handler is discarded, its default disposition.
 A cancellation may act wherever the thread is at a cancellation point; a cancelled thread may still accept once, if the
 connection came first, but not twice.
 */
module PoolProtocol {
  import opened Common
  import opened PoolSizing

  datatype Kind = Hard | Soft

  datatype Agent = ByWorker(id: nat) | ByWatcher | ByMain

  /** Where a worker is in _worker_function. */
  datatype Point =
    | Starting                 // before sigaction
    | Accepting                // in socket_accept
    | Accepted                 // holds a connection, SIGURG not blocked yet
    | WantInc                  // SIGURG blocked, waiting for shared_mutex
    | IncRead | IncWrite(seen: int) | IncUnlock
    | Serving                  // the connection_handler loop
    | Closing                  // the loop has ended, socket_close comes next
    | WantDec
    | DecRead | DecWrite(seen: int) | DecUnlock
    | Unmasking                // about to unblock SIGURG
    | Exited(counted: bool)    // counted: it left without its decrement

  /**
   signals and joins count the pthread_kill/pthread_cancel and pthread_join calls that named this thread;
   lateAccepts counts the connections accepted after the signal or cancellation; busy tells whether SIGURG was blocked
   when it became pending;
   slot is the index in threads[] it was created into.
   */
  datatype Worker = Worker(
    point: Point, blocked: bool, pending: bool, cancelled: bool,
    slot: nat, signals: nat, joins: nat, lateAccepts: nat, busy: bool,
    fd: int, conn: nat)

  /** An accepted connection: the worker it was accepted by, and what has happened to it so far. */
  datatype Conn = Conn(owner: nat, masked: bool, finished: bool, closed: bool)

  datatype Watcher =
    | NotCreated
    | Sleeping | WantShared | Sampling | ReleaseShared(sample: int) | WantWatcher(sample: int)
    | Deciding(sample: int)
    | Growing(next: nat, goal: nat)      // the loop of _grow_pool
    | Shrinking(down: int, goal: nat)    // the loop of _shrink_pool
    | ReleaseWatcher
    | Ended

  /** Where the main thread is: thread_pool_ini, then sigsuspend, then _thread_pool_destroy. */
  datatype Main =
    | Creating(next: nat) | Running
    | WantPool(kind: Kind) | CancelWatcher(kind: Kind)
    | Signalling(kind: Kind, next: nat) | Joining(kind: Kind, next: nat) | Freed(kind: Kind)

  /** installed: some thread has run sigaction; armed: its value when the destroyer sent its first signal. */
  datatype State = State(
    workers: seq<Worker>, slots: seq<Option<nat>>, nSpawned: nat, nActive: int,
    shared: Option<Agent>, watcherMutex: Option<Agent>,
    watcher: Watcher, watcherCancelled: bool, main: Main,
    installed: bool, armed: bool,
    conns: seq<Conn>, open: map<int, nat>)

  function NewWorker(slot: nat): Worker {
    Worker(Starting, false, false, false, slot, 0, 0, 0, false, -1, 0)
  }

  /** The state in which thread_pool_ini enters its creation loop. */
  function Init(maxConnections: nat): State
  {
    var max := if maxConnections < INITIAL_THREADS then INITIAL_THREADS else maxConnections;
    State([], seq(max, _ => None), INITIAL_THREADS, 0, None, None,
          NotCreated, false, Creating(0), false, false, [], map[])
  }

  // ---------- points ----------

  /** Between pthread_mutex_lock and pthread_mutex_unlock of shared_mutex. */
  predicate Critical(p: Point) {
    p.IncRead? || p.IncWrite? || p.IncUnlock? || p.DecRead? || p.DecWrite? || p.DecUnlock?
  }

  /** Between SIG_BLOCK and SIG_UNBLOCK. */
  predicate Masked(p: Point) {
    p.WantInc? || p.Serving? || p.Closing? || p.WantDec? || p.Unmasking? || Critical(p)
  }

  /** Between its own locked increment and its own locked decrement. */
  predicate Counted(p: Point) {
    p.IncUnlock? || p.Serving? || p.Closing? || p.WantDec? || p.DecRead? || p.DecWrite? || (p.Exited? && p.counted)
  }

  /** From the accept to the socket_close of the connection. */
  predicate Holding(p: Point) {
    p.Accepted? || InService(p) || p.Closing?
  }

  /** From the block of SIGURG to the end of the handler loop. */
  predicate InService(p: Point) {
    p.WantInc? || p.IncRead? || p.IncWrite? || p.IncUnlock? || p.Serving?
  }

  predicate IsCounted(w: Worker) {
    Counted(w.point)
  }

  // ---------- worker steps ----------

  datatype WorkerAction =
    | Install | AcceptFails | Accept(newFd: int) | Mask
    | LockInc | ReadInc | WriteInc | UnlockInc
    | ServeAgain | ServeDone | Close
    | LockDec | ReadDec | WriteDec | UnlockDec
    | Unmask
    | SoftExit        // SIGURG is delivered: _soft_kill, then the cleanup handler
    | CancelExit      // a pending cancellation acts at a cancellation point, then the cleanup handler

  predicate WorkerEnabled(s: State, i: nat, a: WorkerAction) {
    && i < |s.workers|
    && var w := s.workers[i];
       match a
       case Install => w.point == Starting
       case AcceptFails => w.point == Accepting
       case Accept(newFd) =>
         w.point == Accepting && newFd >= 0 && newFd !in s.open && (w.cancelled ==> w.lateAccepts == 0)
       case Mask => w.point == Accepted
       case LockInc => w.point == WantInc && s.shared == None
       case ReadInc => w.point == IncRead
       case WriteInc => w.point.IncWrite?
       case UnlockInc => w.point == IncUnlock
       case ServeAgain => w.point == Serving
       case ServeDone => w.point == Serving
       case Close => w.point == Closing
       case LockDec => w.point == WantDec && s.shared == None
       case ReadDec => w.point == DecRead
       case WriteDec => w.point.DecWrite?
       case UnlockDec => w.point == DecUnlock
       case Unmask => w.point == Unmasking
       case SoftExit => w.pending && !w.blocked && !w.point.Exited?
       case CancelExit => w.cancelled && (w.point == Accepting || w.point == Serving || w.point == Closing)
  }

  /** Does this action end the thread, running its cleanup handler? */
  predicate Exits(w: Worker, a: WorkerAction) {
    a.SoftExit? || a.CancelExit? || (a.Unmask? && w.pending)
  }

  function WorkerAfter(s: State, i: nat, a: WorkerAction): Worker
    requires WorkerEnabled(s, i, a)
  {
    var w := s.workers[i];
    match a
    case Install => w.(point := Accepting)
    case AcceptFails => w.(fd := -1)
    case Accept(newFd) =>
      w.(point := Accepted, fd := newFd, conn := |s.conns|,
         lateAccepts := w.lateAccepts + (if w.pending || w.cancelled then 1 else 0))
    case Mask => w.(point := WantInc, blocked := true)
    case LockInc => w.(point := IncRead)
    case ReadInc => w.(point := IncWrite(s.nActive))
    case WriteInc => w.(point := IncUnlock)
    case UnlockInc => w.(point := Serving)
    case ServeAgain => w
    case ServeDone => w.(point := Closing)
    case Close => w.(point := WantDec)
    case LockDec => w.(point := DecRead)
    case ReadDec => w.(point := DecWrite(s.nActive))
    case WriteDec => w.(point := DecUnlock)
    case UnlockDec => w.(point := Unmasking)
    case Unmask =>
      if w.pending then w.(point := Exited(false), blocked := false) else w.(point := Accepting, blocked := false)
    case SoftExit => w.(point := Exited(Counted(w.point)))
    case CancelExit => w.(point := Exited(Counted(w.point)))
  }

  /** The owner of shared_mutex after the action. */
  function SharedAfter(s: State, i: nat, a: WorkerAction): Option<Agent> {
    if a.LockInc? || a.LockDec? then Some(ByWorker(i))
    else if a.UnlockInc? || a.UnlockDec? then None
    else s.shared
  }

  function ActiveAfter(s: State, i: nat, a: WorkerAction): int
    requires WorkerEnabled(s, i, a)
  {
    if a.WriteInc? then s.workers[i].point.seen + 1
    else if a.WriteDec? then s.workers[i].point.seen - 1
    else s.nActive
  }

  /** Does the action call close() on client_fd: at the end of a connection, or in the cleanup handler? */
  predicate Closes(w: Worker, a: WorkerAction) {
    a.Close? || (Exits(w, a) && w.fd != -1)
  }

  /** The descriptor table after the action; closing a number that is not open changes nothing. */
  function OpenAfter(s: State, i: nat, a: WorkerAction): map<int, nat>
    requires WorkerEnabled(s, i, a)
  {
    if a.Accept? then s.open[a.newFd := |s.conns|]
    else if Closes(s.workers[i], a) then s.open - {s.workers[i].fd}
    else s.open
  }

  function ConnsAfter(s: State, i: nat, a: WorkerAction): seq<Conn>
    requires WorkerEnabled(s, i, a)
  {
    var w := s.workers[i];
    if a.Accept? then s.conns + [Conn(i, false, false, false)]
    else if a.Mask? && w.conn < |s.conns| then s.conns[w.conn := s.conns[w.conn].(masked := true)]
    else if a.ServeDone? && w.conn < |s.conns| then s.conns[w.conn := s.conns[w.conn].(finished := true)]
    else if Closes(w, a) && w.fd in s.open && s.open[w.fd] < |s.conns| then
      s.conns[s.open[w.fd] := s.conns[s.open[w.fd]].(closed := true)]
    else s.conns
  }

  function WorkerStep(s: State, i: nat, a: WorkerAction): State
    requires WorkerEnabled(s, i, a)
  {
    s.(workers := s.workers[i := WorkerAfter(s, i, a)], shared := SharedAfter(s, i, a), nActive := ActiveAfter(s, i, a),
       open := OpenAfter(s, i, a), conns := ConnsAfter(s, i, a), installed := s.installed || a.Install?)
  }

  // ---------- signals ----------

  /** pthread_kill(threads[j], SIGURG). */
  function Kill(s: State, j: nat): State
    requires j < |s.slots| && s.slots[j].Some? && s.slots[j].value < |s.workers|
  {
    var id := s.slots[j].value;
    var w := s.workers[id];
    s.(workers := s.workers[id := w.(
         signals := w.signals + 1, pending := w.pending || s.installed,
         busy := w.busy || (w.blocked && s.installed && !w.pending))])
  }

  /** pthread_cancel(threads[j]). */
  function Cancel(s: State, j: nat): State
    requires j < |s.slots| && s.slots[j].Some? && s.slots[j].value < |s.workers|
  {
    var id := s.slots[j].value;
    var w := s.workers[id];
    s.(workers := s.workers[id := w.(signals := w.signals + 1, cancelled := true)])
  }

  predicate SlotReady(s: State, j: int) {
    0 <= j < |s.slots| && s.slots[j].Some? && s.slots[j].value < |s.workers|
  }

  /** pthread_create(&threads[j], ...) succeeding. */
  function Spawn(s: State, j: nat): State
    requires j < |s.slots|
  {
    s.(workers := s.workers + [NewWorker(j)], slots := s.slots[j := Some(|s.workers|)])
  }

  // ---------- watcher steps ----------

  datatype WatcherAction =
    | Wake | LockShared | Sample | UnlockShared | LockWatcher | Decide
    | GrowOne(ok: bool) | GrowDone | ShrinkOne | ShrinkDone | UnlockWatcher | EndWatcher

  predicate WatcherEnabled(s: State, a: WatcherAction) {
    var p := s.watcher;
    match a
    case Wake => p == Sleeping
    case LockShared => p == WantShared && s.shared == None
    case Sample => p == Sampling
    case UnlockShared => p.ReleaseShared?
    case LockWatcher => p.WantWatcher? && s.watcherMutex == None
    case Decide => p.Deciding? && s.nSpawned <= |s.slots|
    case GrowOne(ok) => p.Growing? && p.next < p.goal && p.next < |s.slots|
    case GrowDone => p.Growing? && p.next >= p.goal
    case ShrinkOne => p.Shrinking? && p.down >= p.goal && SlotReady(s, p.down)
    case ShrinkDone => p.Shrinking? && p.down < p.goal
    case UnlockWatcher => p == ReleaseWatcher
    case EndWatcher => p == Sleeping && s.watcherCancelled
  }

  /** The branch the watcher takes at the sample e, with the early returns of _grow_pool and _shrink_pool. */
  function Decision(s: State, e: int): Watcher
    requires s.nSpawned <= |s.slots|
  {
    var n := s.nSpawned;
    if WantsGrow(e, n) then
      if n == |s.slots| then ReleaseWatcher else Growing(n, GrowTarget(n, |s.slots|))
    else if WantsShrink(e, n) then
      if ShrinkTarget(n) == n then ReleaseWatcher else Shrinking(n - 1, ShrinkTarget(n))
    else ReleaseWatcher
  }

  function WatcherStep(s: State, a: WatcherAction): State
    requires WatcherEnabled(s, a)
  {
    var p := s.watcher;
    match a
    case Wake => s.(watcher := WantShared)
    case LockShared => s.(watcher := Sampling, shared := Some(ByWatcher))
    case Sample => s.(watcher := ReleaseShared(s.nActive))
    case UnlockShared => s.(watcher := WantWatcher(p.sample), shared := None)
    case LockWatcher => s.(watcher := Deciding(p.sample), watcherMutex := Some(ByWatcher))
    case Decide => s.(watcher := Decision(s, p.sample))
    case GrowOne(ok) =>
      if ok then Spawn(s, p.next).(watcher := Growing(p.next + 1, p.goal))
      else s.(watcher := ReleaseWatcher, nSpawned := p.next)
    case GrowDone => s.(watcher := ReleaseWatcher, nSpawned := p.goal)
    case ShrinkOne => Kill(s, p.down).(watcher := Shrinking(p.down - 1, p.goal))
    case ShrinkDone => s.(watcher := ReleaseWatcher, nSpawned := p.goal)
    case UnlockWatcher => s.(watcher := Sleeping, watcherMutex := None)
    case EndWatcher => s.(watcher := Ended)
  }

  // ---------- main thread steps ----------

  datatype MainAction =
    | CreateOne | CreateWatcher | BeginDestroy(kind: Kind) | LockPool | StopWatcher
    | SignalOne | SignalsDone | JoinOne | Free

  predicate MainEnabled(s: State, a: MainAction) {
    var p := s.main;
    match a
    case CreateOne => p.Creating? && p.next < s.nSpawned && p.next < |s.slots|
    case CreateWatcher => p.Creating? && p.next >= s.nSpawned
    case BeginDestroy(kind) => p == Running
    case LockPool => p.WantPool? && s.watcherMutex == None
    case StopWatcher => p.CancelWatcher?
    case SignalOne => p.Signalling? && p.next < s.nSpawned && SlotReady(s, p.next)
    case SignalsDone => p.Signalling? && p.next >= s.nSpawned
    case JoinOne =>
      p.Joining? && p.next < s.nSpawned && SlotReady(s, p.next) && s.workers[s.slots[p.next].value].point.Exited?
    case Free => p.Joining? && p.next >= s.nSpawned
  }

  function MainStep(s: State, a: MainAction): State
    requires MainEnabled(s, a)
  {
    var p := s.main;
    match a
    case CreateOne => Spawn(s, p.next).(main := Creating(p.next + 1))
    case CreateWatcher => s.(main := Running, watcher := Sleeping)
    case BeginDestroy(kind) => s.(main := WantPool(kind))
    case LockPool => s.(main := CancelWatcher(p.kind), watcherMutex := Some(ByMain))
    case StopWatcher => s.(main := Signalling(p.kind, 0), watcherCancelled := true)
    case SignalOne =>
      (if p.kind == Hard then Cancel(s, p.next) else Kill(s, p.next)).(
        main := Signalling(p.kind, p.next + 1), armed := if p.next == 0 then s.installed else s.armed)
    case SignalsDone => s.(main := Joining(p.kind, 0))
    case JoinOne =>
      var id := s.slots[p.next].value;
      s.(main := Joining(p.kind, p.next + 1),
         workers := s.workers[id := s.workers[id].(joins := s.workers[id].joins + 1)])
    case Free => s.(main := Freed(p.kind))
  }

  // ---------- runs ----------

  datatype Step = OfWorker(id: nat, act: WorkerAction) | OfWatcher(wact: WatcherAction) | OfMain(mact: MainAction)

  /** Nothing is modelled after the pool has been freed. */
  predicate Enabled(s: State, step: Step) {
    && !s.main.Freed?
    && match step
       case OfWorker(i, a) => WorkerEnabled(s, i, a)
       case OfWatcher(a) => WatcherEnabled(s, a)
       case OfMain(a) => MainEnabled(s, a)
  }

  function Apply(s: State, step: Step): State
    requires Enabled(s, step)
  {
    match step
    case OfWorker(i, a) => WorkerStep(s, i, a)
    case OfWatcher(a) => WatcherStep(s, a)
    case OfMain(a) => MainStep(s, a)
  }

  datatype Run = Run(states: seq<State>, steps: seq<Step>)

  /** Step k leads from state k to state k + 1. */
  ghost predicate Linked(r: Run, k: nat)
    requires |r.states| == |r.steps| + 1 && k < |r.steps|
  {
    Enabled(r.states[k], r.steps[k]) && r.states[k + 1] == Apply(r.states[k], r.steps[k])
  }

  /** Consecutive states of a run are linked by its steps. */
  ghost predicate IsExecution(r: Run) {
    && |r.states| == |r.steps| + 1
    && forall k :: 0 <= k < |r.steps| ==> Linked(r, k)
  }

  /** A run of the pool from thread_pool_ini on, for some configured number of connections. */
  ghost predicate IsRun(r: Run, maxConnections: nat) {
    IsExecution(r) && r.states[0] == Init(maxConnections)
  }

  function Last(r: Run): State
    requires |r.states| > 0
  {
    r.states[|r.states| - 1]
  }
}
