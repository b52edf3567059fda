/** The pool's own code, loop by loop, against the sizing functions and a record of the thread calls it makes. */
module ThreadPool {
  import opened Common
  import opened PoolSizing

  type Thread = nat

  /**
   The calls: outcomes says which of the coming pthread_create calls succeed; the rest records the calls made, and how
   often the listening socket has been closed.
   */
  class Threads {
    var outcomes: seq<bool>
    var next: Thread
    var killed: seq<Thread>
    var cancelled: seq<Thread>
    var joined: seq<Thread>
    var closes: nat

    constructor (outcomes: seq<bool>)
      ensures this.outcomes == outcomes && next == 0 && killed == cancelled == joined == [] && closes == 0
    {
      this.outcomes, next, killed, cancelled, joined, closes := outcomes, 0, [], [], [], 0;
    }

    method CloseSocket()
      modifies this`closes
      ensures closes == old(closes) + 1
    {
      closes := closes + 1;
    }

    method Create() returns (ok: bool, t: Thread)
      modifies this`outcomes, this`next
      ensures ok == (old(outcomes) != [] && old(outcomes)[0])
      ensures outcomes == if old(outcomes) == [] then [] else old(outcomes)[1..]
      ensures t == old(next) && next == if ok then old(next) + 1 else old(next)
    {
      ok, t := outcomes != [] && outcomes[0], next;
      outcomes := if outcomes == [] then [] else outcomes[1..];
      next := if ok then next + 1 else next;
    }

    method Kill(t: Thread)
      modifies this`killed
      ensures killed == old(killed) + [t]
    {
      killed := killed + [t];
    }

    method Cancel(t: Thread)
      modifies this`cancelled
      ensures cancelled == old(cancelled) + [t]
    {
      cancelled := cancelled + [t];
    }

    method Join(t: Thread)
      modifies this`joined
      ensures joined == old(joined) + [t]
    {
      joined := joined + [t];
    }
  }

  function Reversed<T>(s: seq<T>): (r: seq<T>)
    ensures |r| == |s|
    ensures forall i :: 0 <= i < |s| ==> r[i] == s[|s| - 1 - i]
  {
    if s == [] then [] else [s[|s| - 1]] + Reversed(s[..|s| - 1])
  }

  /** k consecutive fresh thread names. */
  function NewThreads(first: Thread, k: nat): (r: seq<Thread>)
    ensures |r| == k && forall i :: 0 <= i < k ==> r[i] == first + i
  {
    seq(k, i requires 0 <= i => first + i)
  }

  /** The slots after creating the threads for slots n to i. */
  function Placed(was: seq<Thread>, n: nat, first: Thread, i: nat): (r: seq<Thread>)
    requires n <= i <= |was|
    ensures |r| == |was|
  {
    was[..n] + NewThreads(first, i - n) + was[i..]
  }

  lemma PlaceNext(was: seq<Thread>, n: nat, first: Thread, i: nat)
    requires n <= i < |was|
    ensures Placed(was, n, first, i)[i := first + (i - n)] == Placed(was, n, first, i + 1)
  {
  }

  class Pool {
    const calls: Threads
    const threads: array<Thread>
    /** Whatever the memory held until the watcher has been created. */
    var watcher: Thread
    var nSpawned: nat

    ghost predicate Valid()
      reads this
    {
      INITIAL_THREADS <= nSpawned <= threads.Length
    }

    constructor (calls: Threads, maxThreads: nat, garbage: Thread)
      requires maxThreads >= INITIAL_THREADS
      ensures this.calls == calls && fresh(threads) && threads.Length == maxThreads && nSpawned == INITIAL_THREADS
        && watcher == garbage
    {
      this.calls := calls;
      threads := new Thread[maxThreads];
      watcher := garbage;
      nSpawned := INITIAL_THREADS;
    }

    method GrowPool()
      requires Valid()
      modifies this`nSpawned, threads, calls`outcomes, calls`next
      ensures Valid()
      ensures nSpawned ==
        old(nSpawned) + Created(Min((3 * old(nSpawned) + 1) / 2, threads.Length) - old(nSpawned), old(calls.outcomes))
      ensures threads[..] ==
        old(threads[..nSpawned]) + NewThreads(old(calls.next), nSpawned - old(nSpawned)) + old(threads[..])[nSpawned..]
    {
      SizingInIntegers(0, nSpawned);
      var goal := GrowGoal(nSpawned);
      if nSpawned == threads.Length {
        return;
      }
      if goal > threads.Length {
        goal := threads.Length;
      }
      SpawnUpTo(goal);
    }

    /** The creation loop of _grow_pool. */
    method SpawnUpTo(goal: int)
      requires nSpawned <= goal <= threads.Length
      modifies this`nSpawned, threads, calls`outcomes, calls`next
      ensures nSpawned == old(nSpawned) + Created(goal - old(nSpawned), old(calls.outcomes))
      ensures threads[..] ==
        old(threads[..nSpawned]) + NewThreads(old(calls.next), nSpawned - old(nSpawned)) + old(threads[..])[nSpawned..]
    {
      ghost var n, was, outcomes, first := nSpawned, threads[..], calls.outcomes, calls.next;
      var i := nSpawned;
      while i < goal
        invariant n <= i <= goal && nSpawned == n
        invariant calls.next == first + (i - n)
        invariant i - n + Created(goal - i, calls.outcomes) == Created(goal - n, outcomes)
        invariant threads[..] == Placed(was, n, first, i)
      {
        var ok, t := calls.Create();
        if !ok {
          nSpawned := i;
          return;
        }
        PlaceNext(was, n, first, i);
        threads[i] := t;
        i := i + 1;
      }
      nSpawned := goal;
    }

    method ShrinkPool()
      requires Valid()
      modifies this`nSpawned, calls`killed
      ensures Valid()
      ensures nSpawned == if old(nSpawned) > 132 then (3 * old(nSpawned) + 3) / 4 else old(nSpawned)
      ensures calls.killed == old(calls.killed) + Reversed(threads[nSpawned..old(nSpawned)])
    {
      SizingInIntegers(0, nSpawned);
      var goal := ShrinkGoal(nSpawned);
      if goal < INITIAL_THREADS || goal == nSpawned {
        return;
      }
      ghost var n := nSpawned;
      var i := nSpawned - 1;
      while i >= goal
        invariant goal - 1 <= i < n
        invariant calls.killed == old(calls.killed) + Reversed(threads[i + 1..n])
      {
        assert threads[i..n] == [threads[i]] + threads[i + 1..n];
        ReversedCons(threads[i], threads[i + 1..n]);
        calls.Kill(threads[i]);
        i := i - 1;
      }
      nSpawned := goal;
    }

    /** One pass of _watcher_function over a sample of n_active_threads, however stale. */
    method WatcherPass(executing: int)
      requires Valid()
      modifies this`nSpawned, threads, calls`outcomes, calls`next, calls`killed
      ensures Valid()
      ensures nSpawned == PassSize(old(nSpawned), executing, threads.Length, old(calls.outcomes))
      ensures 4 * executing > 3 * old(nSpawned) ==>
        var goal := Min((3 * old(nSpawned) + 1) / 2, threads.Length);
        nSpawned == old(nSpawned) + Created(goal - old(nSpawned), old(calls.outcomes))
      ensures 4 * executing < old(nSpawned) ==>
        nSpawned == if old(nSpawned) > 132 then (3 * old(nSpawned) + 3) / 4 else old(nSpawned)
      ensures old(nSpawned) <= 4 * executing <= 3 * old(nSpawned) ==> nSpawned == old(nSpawned)
      ensures nSpawned <= old(nSpawned) ==> threads[..] == old(threads[..])
      ensures nSpawned > old(nSpawned) ==>
        threads[..] == old(threads[..nSpawned]) + NewThreads(old(calls.next), nSpawned - old(nSpawned))
          + old(threads[..])[nSpawned..]
      ensures 4 * executing >= old(nSpawned) ==> calls.killed == old(calls.killed)
      ensures 4 * executing < old(nSpawned) ==>
        calls.killed == old(calls.killed) + Reversed(old(threads[..])[nSpawned..old(nSpawned)])
    {
      SizingInIntegers(executing, nSpawned);
      if executing as real > 0.75 * nSpawned as real {
        GrowPool();
      } else if (executing as real) < 0.25 * nSpawned as real {
        ShrinkPool();
      }
    }

    /**
     _thread_pool_destroy: the watcher is cancelled, each thread in a slot is told once, then joined once, in slot
     order, and the socket is closed.
     */
    method Destroy(hard: bool)
      requires nSpawned <= threads.Length
      modifies calls`killed, calls`cancelled, calls`joined, calls`closes
      ensures calls.cancelled == old(calls.cancelled) + [watcher] + (if hard then threads[..nSpawned] else [])
      ensures calls.killed == old(calls.killed) + (if hard then [] else threads[..nSpawned])
      ensures calls.joined == old(calls.joined) + threads[..nSpawned]
      ensures calls.closes == old(calls.closes) + 1
    {
      calls.Cancel(watcher);
      if hard {
        for i := 0 to nSpawned
          modifies calls`cancelled
          invariant calls.cancelled == old(calls.cancelled) + [watcher] + threads[..i]
        {
          calls.Cancel(threads[i]);
        }
      } else {
        for i := 0 to nSpawned
          modifies calls`killed
          invariant calls.killed == old(calls.killed) + threads[..i]
        {
          calls.Kill(threads[i]);
        }
      }
      for i := 0 to nSpawned
        modifies calls`joined
        invariant calls.joined == old(calls.joined) + threads[..i]
      {
        calls.Join(threads[i]);
      }
      calls.CloseSocket();
    }
  }

  lemma {:induction false} ReversedCons<T>(x: T, s: seq<T>)
    ensures Reversed([x] + s) == Reversed(s) + [x]
  {
  }

  /** Which of the first calls of thread_pool_ini succeed: the allocations and the initialisations of the mutexes. */
  datatype Luck = Luck(pool: bool, sharedMutex: bool, watcherMutex: bool, threads: bool)

  /**
   thread_pool_ini: no pool when not even one connection is allowed or when anything fails; the socket has then been
   closed once, and the threads already created have been cancelled and joined. Every failure from the allocation of the
   slots on also cancels the watcher, which does not exist yet: garbage is what the fresh memory holds in its place.
   Otherwise 100 threads and the watcher run.
   */
  method ThreadPoolIni(calls: Threads, maxConnections: int, luck: Luck, garbage: Thread) returns (pool: Pool?)
    modifies calls
    ensures pool != null <==>
      maxConnections >= 1 && luck == Luck(true, true, true, true)
        && Created(INITIAL_THREADS + 1, old(calls.outcomes)) == INITIAL_THREADS + 1
    ensures pool != null ==>
      && fresh(pool) && fresh(pool.threads) && pool.Valid() && pool.calls == calls && pool.nSpawned == INITIAL_THREADS
      && pool.threads.Length == (if maxConnections < INITIAL_THREADS then INITIAL_THREADS else maxConnections)
      && pool.threads[..INITIAL_THREADS] == NewThreads(old(calls.next), INITIAL_THREADS)
      && pool.watcher == old(calls.next) + INITIAL_THREADS
      && calls.cancelled == old(calls.cancelled) && calls.joined == old(calls.joined)
      && calls.closes == old(calls.closes)
    ensures pool == null ==>
      var started := maxConnections >= 1 && luck.pool && luck.sharedMutex && luck.watcherMutex;
      var made := if !started || !luck.threads then [] else
        NewThreads(old(calls.next), Min(INITIAL_THREADS, Created(INITIAL_THREADS + 1, old(calls.outcomes))));
      && calls.closes == old(calls.closes) + 1 && calls.joined == old(calls.joined) + made
      && calls.cancelled == old(calls.cancelled) + (if started then [garbage] + made else [])
  {
    ghost var outcomes, first := calls.outcomes, calls.next;
    if maxConnections < 1 {
      calls.CloseSocket();
      return null;
    }
    var maxThreads := maxConnections;
    if maxThreads < INITIAL_THREADS {
      maxThreads := INITIAL_THREADS;
    }
    if !luck.pool || !luck.sharedMutex || !luck.watcherMutex {
      calls.CloseSocket();
      return null;
    }
    if !luck.threads {
      calls.Cancel(garbage);
      calls.CloseSocket();
      return null;
    }
    var p := new Pool(calls, maxThreads, garbage);
    var all := StartThreads(p);
    if !all {
      p.Destroy(true);
      return null;
    }
    var ok, t := calls.Create();
    if !ok {
      p.Destroy(true);
      return null;
    }
    p.watcher := t;
    return p;
  }

  /** The creation loop of thread_pool_ini; n_spawned_threads tells how far it came. */
  method StartThreads(p: Pool) returns (all: bool)
    requires p.Valid() && p.nSpawned == INITIAL_THREADS
    modifies p`nSpawned, p.threads, p.calls`outcomes, p.calls`next
    ensures all <==> Created(INITIAL_THREADS + 1, old(p.calls.outcomes)) >= INITIAL_THREADS
    ensures p.nSpawned == Min(INITIAL_THREADS, Created(INITIAL_THREADS + 1, old(p.calls.outcomes)))
    ensures p.threads[..p.nSpawned] == NewThreads(old(p.calls.next), p.nSpawned)
      && p.calls.next == old(p.calls.next) + p.nSpawned
    ensures all ==> p.nSpawned + Created(1, p.calls.outcomes) == Created(INITIAL_THREADS + 1, old(p.calls.outcomes))
  {
    ghost var outcomes, first := p.calls.outcomes, p.calls.next;
    var i := 0;
    while i < p.nSpawned
      invariant 0 <= i <= p.nSpawned == INITIAL_THREADS
      invariant p.calls.next == first + i
      invariant i + Created(INITIAL_THREADS + 1 - i, p.calls.outcomes) == Created(INITIAL_THREADS + 1, outcomes)
      invariant p.threads[..i] == NewThreads(first, i)
    {
      var ok, t := p.calls.Create();
      if !ok {
        p.nSpawned := i;
        return false;
      }
      p.threads[i] := t;
      i := i + 1;
    }
    return true;
  }
}
