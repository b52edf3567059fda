/** The watcher's pass in the transition system ends at the very size that the pool's own code computes. */
module PoolRefinement {
  import opened Common
  import opened PoolSizing
  import opened PoolProtocol
  import opened PoolSafety
  import opened PoolTheorems

  /** An execution of the watcher alone, from s to the release of watcher_mutex. */
  ghost predicate IsWatcherPass(r: Run, s: State) {
    && IsExecution(r) && r.states[0] == s
    && (forall k :: 0 <= k < |r.steps| ==> r.steps[k].OfWatcher?)
    && Last(r).watcher == ReleaseWatcher && |Last(r).slots| == |s.slots|
  }

  lemma Before(s: State, a: WatcherAction, r: Run) returns (r': Run)
    requires Enabled(s, OfWatcher(a)) && IsWatcherPass(r, WatcherStep(s, a)) && |WatcherStep(s, a).slots| == |s.slots|
    ensures IsWatcherPass(r', s) && Last(r') == Last(r)
  {
    r' := Run([s] + r.states, [OfWatcher(a)] + r.steps);
    forall k | 0 <= k < |r'.steps|
      ensures Linked(r', k)
    {
      assert k > 0 ==> Linked(r, k - 1) && r'.states[k] == r.states[k - 1] && r'.steps[k] == r.steps[k - 1];
    }
  }

  lemma Now(s: State) returns (r: Run)
    requires s.watcher == ReleaseWatcher
    ensures IsWatcherPass(r, s) && Last(r) == s
  {
    r := Run([s], []);
  }

  /** The loop of _grow_pool, with oks the outcomes of its thread creations. */
  lemma {:induction false} GrowLoop(s: State, oks: seq<bool>) returns (r: Run)
    requires s.watcher.Growing? && s.watcher.next <= s.watcher.goal <= |s.slots| && !s.main.Freed?
    ensures IsWatcherPass(r, s) && Last(r).nSpawned == s.watcher.next + Created(s.watcher.goal - s.watcher.next, oks)
    decreases s.watcher.goal - s.watcher.next
  {
    if s.watcher.next == s.watcher.goal {
      r := EndHere(s, GrowDone);
    } else if oks == [] || !oks[0] {
      r := EndHere(s, GrowOne(false));
    } else {
      r := GrowLoop(WatcherStep(s, GrowOne(true)), oks[1..]);
      r := Before(s, GrowOne(true), r);
    }
  }

  /** The step that ends the loop. */
  lemma EndHere(s: State, a: WatcherAction) returns (r: Run)
    requires Enabled(s, OfWatcher(a)) && WatcherStep(s, a).watcher == ReleaseWatcher
      && |WatcherStep(s, a).slots| == |s.slots|
    ensures IsWatcherPass(r, s) && Last(r) == WatcherStep(s, a)
  {
    r := Now(WatcherStep(s, a));
    r := Before(s, a, r);
  }

  lemma {:induction false} ShrinkLoop(s: State) returns (r: Run)
    requires Inv(s) && s.watcher.Shrinking? && !s.main.Freed?
    ensures IsWatcherPass(r, s) && Last(r).nSpawned == s.watcher.goal
    decreases s.watcher.down - s.watcher.goal + 1
  {
    if s.watcher.down < s.watcher.goal {
      r := EndHere(s, ShrinkDone);
    } else {
      InvWatcher(s, ShrinkOne);
      r := ShrinkLoop(WatcherStep(s, ShrinkOne));
      r := Before(s, ShrinkOne, r);
    }
  }

  /** From the watcher's decision on a sample to its release: the size is the one PassSize gives. */
  lemma PassInProtocol(s: State, oks: seq<bool>) returns (r: Run)
    requires Inv(s) && s.watcher.Deciding? && !s.main.Freed?
    ensures IsWatcherPass(r, s) && Last(r).nSpawned == PassSize(s.nSpawned, s.watcher.sample, |s.slots|, oks)
  {
    InvWatcher(s, Decide);
    var s' := WatcherStep(s, Decide);
    if s'.watcher.Growing? {
      r := GrowLoop(s', oks);
    } else if s'.watcher.Shrinking? {
      r := ShrinkLoop(s');
    } else {
      r := Now(s');
    }
    r := Before(s, Decide, r);
  }

  // ---------- and no other sizes ever occur ----------

  /** k creations succeed, and then one may fail. */
  function Successes(k: nat, thenFail: bool): seq<bool> {
    seq(k, _ => true) + (if thenFail then [false] else [])
  }

  lemma {:induction false} CreatedSuccesses(want: nat, k: nat, thenFail: bool)
    requires k == want || (k < want && thenFail)
    ensures Created(want, Successes(k, thenFail)) == k
  {
    if k == 0 {
    } else {
      assert Successes(k, thenFail)[1..] == Successes(k - 1, thenFail);
      CreatedSuccesses(want - 1, k - 1, thenFail);
    }
  }

  // ---------- the passes of a run ----------

  /**
   The load at the watcher's last sample in the first k steps: how many workers were between increment and decrement.
   */
  function LastLoad(r: Run, k: nat): nat
    requires k <= |r.steps| && |r.states| == |r.steps| + 1
  {
    if k == 0 then 0
    else if r.steps[k - 1] == OfWatcher(Sample) then CountIf(r.states[k - 1].workers, IsCounted)
    else LastLoad(r, k - 1)
  }

  /** The outcomes of the watcher's pthread_create calls since its last decision. */
  function Outcomes(r: Run, k: nat): seq<bool>
    requires k <= |r.steps|
  {
    if k == 0 || r.steps[k - 1] == OfWatcher(Decide) then []
    else Outcomes(r, k - 1) + OutcomeOf(r.steps[k - 1])
  }

  function OutcomeOf(step: Step): seq<bool> {
    if step.OfWatcher? && step.wact.GrowOne? then [step.wact.ok] else []
  }

  predicate InLoop(p: Watcher) {
    p.Growing? || p.Shrinking?
  }

  /** Does this step, from s to s', end a pass? */
  predicate EndsPass(s: State, step: Step, s': State) {
    (InLoop(s.watcher) || step == OfWatcher(Decide)) && !InLoop(s'.watcher)
  }

  /** The watcher's passes in the first k steps: the load sampled for each, and the outcomes of its creations. */
  function Passes(r: Run, k: nat): seq<Pass>
    requires k <= |r.steps| && |r.states| == |r.steps| + 1
  {
    if k == 0 then []
    else if EndsPass(r.states[k - 1], r.steps[k - 1], r.states[k]) then
      Passes(r, k - 1) + [Pass(LastLoad(r, k - 1), Outcomes(r, k))]
    else Passes(r, k - 1)
  }

  predicate HasSample(p: Watcher) {
    p.ReleaseShared? || p.WantWatcher? || p.Deciding?
  }

  /** These whole passes give the size, and the pass under way has this load and these outcomes so far. */
  ghost predicate Follows(s: State, passes: seq<Pass>, load: int, oks: seq<bool>) {
    && INITIAL_THREADS <= |s.slots|
    && s.nSpawned == SizeAfter(INITIAL_THREADS, |s.slots|, passes) && AllWhole(INITIAL_THREADS, |s.slots|, passes)
    && (HasSample(s.watcher) ==> s.watcher.sample == load)
    && (s.watcher.Growing? ==>
          && WantsGrow(load, s.nSpawned) && s.watcher.goal == GrowTarget(s.nSpawned, |s.slots|)
          && s.watcher.next >= s.nSpawned && oks == Successes(s.watcher.next - s.nSpawned, false))
    && (s.watcher.Shrinking? ==>
          !WantsGrow(load, s.nSpawned) && WantsShrink(load, s.nSpawned) && s.watcher.goal == ShrinkTarget(s.nSpawned))
  }

  /** The pass ends with this load and these outcomes. */
  lemma {:induction false} EndPass(s: State, s': State, passes: seq<Pass>, last: Pass)
    requires INITIAL_THREADS <= |s.slots| == |s'.slots| && s.nSpawned == SizeAfter(INITIAL_THREADS, |s.slots|, passes)
    requires AllWhole(INITIAL_THREADS, |s.slots|, passes) && IsWhole(s.nSpawned, |s.slots|, last)
    requires !InLoop(s'.watcher) && !HasSample(s'.watcher)
    requires s'.nSpawned == PassSize(s.nSpawned, last.executing, |s.slots|, last.oks)
    ensures Follows(s', passes + [last], last.executing, last.oks)
  {
    SizeAfterAppend(INITIAL_THREADS, |s.slots|, passes, last);
    AllWholeAppend(INITIAL_THREADS, |s.slots|, passes, last);
  }

  lemma FollowsDecide(s: State, passes: seq<Pass>, load: nat, oks: seq<bool>)
    requires SizesOk(s) && WatcherEnabled(s, Decide) && Follows(s, passes, load, oks)
    ensures var s' := WatcherStep(s, Decide);
      Follows(s', if InLoop(s'.watcher) then passes else passes + [Pass(load, [])], load, [])
  {
    var s' := WatcherStep(s, Decide);
    if InLoop(s'.watcher) {
      assert Successes(0, false) == [];
    } else {
      EndPass(s, s', passes, Pass(load, []));
    }
  }

  /** The loop of _grow_pool ends, with a failed creation or without. */
  lemma FollowsGrowEnd(s: State, a: WatcherAction, passes: seq<Pass>, load: nat, oks: seq<bool>)
    requires SizesOk(s) && WatcherEnabled(s, a) && Follows(s, passes, load, oks) && (a.GrowDone? || a == GrowOne(false))
    ensures Follows(WatcherStep(s, a), passes + [Pass(load, oks + OutcomeOf(OfWatcher(a)))], load,
                    oks + OutcomeOf(OfWatcher(a)))
  {
    var k := s.watcher.next - s.nSpawned;
    CreatedSuccesses(s.watcher.goal - s.nSpawned, k, a.GrowOne?);
    assert oks + OutcomeOf(OfWatcher(a)) == Successes(k, a.GrowOne?);
    EndPass(s, WatcherStep(s, a), passes, Pass(load, Successes(k, a.GrowOne?)));
  }

  lemma FollowsGrowOne(s: State, passes: seq<Pass>, load: nat, oks: seq<bool>)
    requires SizesOk(s) && WatcherEnabled(s, GrowOne(true)) && Follows(s, passes, load, oks)
    ensures Follows(WatcherStep(s, GrowOne(true)), passes, load, oks + [true])
  {
    var k := s.watcher.next - s.nSpawned;
    assert oks + [true] == Successes(k + 1, false);
  }

  lemma FollowsShrinkEnd(s: State, passes: seq<Pass>, load: nat, oks: seq<bool>)
    requires SizesOk(s) && WatcherEnabled(s, ShrinkDone) && Follows(s, passes, load, oks)
    ensures Follows(WatcherStep(s, ShrinkDone), passes + [Pass(load, oks)], load, oks)
  {
    EndPass(s, WatcherStep(s, ShrinkDone), passes, Pass(load, oks));
  }

  /** The steps that move the passes along. */
  predicate OfPass(step: Step) {
    step.OfWatcher? && (
      step.wact.Sample? || step.wact.Decide? || step.wact.GrowOne? || step.wact.GrowDone? || step.wact.ShrinkDone?)
  }

  /** Neither the size nor the sample nor the loop under way changes. */
  predicate SizedAlike(s: State, s': State) {
    && |s'.slots| == |s.slots| && s'.nSpawned == s.nSpawned
    && (s'.watcher.Growing? <==> s.watcher.Growing?) && (s'.watcher.Shrinking? <==> s.watcher.Shrinking?)
    && (InLoop(s.watcher) ==> s'.watcher.goal == s.watcher.goal)
    && (s.watcher.Growing? ==> s'.watcher.next == s.watcher.next)
    && (HasSample(s'.watcher) ==> HasSample(s.watcher) && s'.watcher.sample == s.watcher.sample)
  }

  lemma WatcherSizesAlike(s: State, a: WatcherAction)
    requires WatcherEnabled(s, a) && !OfPass(OfWatcher(a))
    ensures SizedAlike(s, WatcherStep(s, a))
  {
  }

  lemma MainSizesAlike(s: State, a: MainAction)
    requires PoolMutexOk(s) && MainEnabled(s, a)
    ensures SizedAlike(s, MainStep(s, a))
  {
  }

  lemma SameSizing(s: State, step: Step)
    requires PoolMutexOk(s) && Enabled(s, step) && !OfPass(step)
    ensures SizedAlike(s, Apply(s, step))
  {
    match step
    case OfWorker(i, a) => assert Apply(s, step).watcher == s.watcher;
    case OfWatcher(a) => WatcherSizesAlike(s, a);
    case OfMain(a) => MainSizesAlike(s, a);
  }

  lemma FollowsPass(s: State, a: WatcherAction, passes: seq<Pass>, load: nat, oks: seq<bool>)
    requires SizesOk(s) && WatcherEnabled(s, a) && OfPass(OfWatcher(a)) && !a.Sample? && !a.Decide?
    requires Follows(s, passes, load, oks)
    ensures var s', oks' := WatcherStep(s, a), oks + OutcomeOf(OfWatcher(a));
      Follows(s', if EndsPass(s, OfWatcher(a), s') then passes + [Pass(load, oks')] else passes, load, oks')
  {
    if a == GrowOne(true) {
      FollowsGrowOne(s, passes, load, oks);
    } else if a.ShrinkDone? {
      assert oks + [] == oks;
      FollowsShrinkEnd(s, passes, load, oks);
    } else {
      FollowsGrowEnd(s, a, passes, load, oks);
    }
  }

  lemma FollowsSample(s: State, passes: seq<Pass>, load: nat, oks: seq<bool>)
    requires WatcherEnabled(s, Sample) && CounterOk(s) && Follows(s, passes, load, oks)
    ensures Follows(WatcherStep(s, Sample), passes, CountIf(s.workers, IsCounted), oks)
  {
  }

  lemma FollowsOther(s: State, step: Step, s': State, passes: seq<Pass>, load: nat, oks: seq<bool>)
    requires SizedAlike(s, s') && Follows(s, passes, load, oks)
    requires !(step.OfWatcher? && step.wact.Decide?)
    ensures Follows(s', passes, load, oks) && !EndsPass(s, step, s')
  {
  }

  /** The passes, the load and the outcomes after one more step. */
  lemma FollowsStep(s: State, step: Step, s': State, passes: seq<Pass>, load: nat, oks: seq<bool>)
    requires SizesOk(s) && PoolMutexOk(s) && CounterOk(s) && Enabled(s, step) && s' == Apply(s, step)
    requires Follows(s, passes, load, oks)
    ensures var load' := if step == OfWatcher(Sample) then CountIf(s.workers, IsCounted) else load;
      var oks' := if step == OfWatcher(Decide) then [] else oks + OutcomeOf(step);
      Follows(s', if EndsPass(s, step, s') then passes + [Pass(load, oks')] else passes, load', oks')
  {
    assert oks + [] == oks;
    if !OfPass(step) {
      SameSizing(s, step);
      FollowsOther(s, step, s', passes, load, oks);
    } else if step.wact.Sample? {
      FollowsSample(s, passes, load, oks);
    } else if step.wact.Decide? {
      FollowsDecide(s, passes, load, oks);
    } else {
      FollowsPass(s, step.wact, passes, load, oks);
    }
  }

  /**
   In every run, whatever the workers do in between and however stale the samples are, the size of the pool is the one
   that its successive passes give. Each pass is whole, its load is the number of workers that were between their
   increment and their decrement when the watcher last sampled, and its outcomes are those of its thread creations.
   */
  lemma {:induction false} SizesComeFromPasses(r: Run, maxConnections: nat, k: nat)
    requires IsRun(r, maxConnections) && k < |r.states|
    ensures Follows(r.states[k], Passes(r, k), LastLoad(r, k), Outcomes(r, k))
  {
    if k == 0 {
    } else {
      SizesComeFromPasses(r, maxConnections, k - 1);
      var s, step := r.states[k - 1], r.steps[k - 1];
      assert SizesOk(s) && PoolMutexOk(s) && CounterOk(s) by { RunsAreSafe(r, maxConnections, k - 1); }
      assert Linked(r, k - 1);
      FollowsStep(s, step, r.states[k], Passes(r, k - 1), LastLoad(r, k - 1), Outcomes(r, k - 1));
    }
  }

  /** The sample the watcher acts on is the load when it last sampled, and it has sampled since its last pass. */
  lemma {:induction false} SampleIsLoad(r: Run, maxConnections: nat, k: nat) returns (j: nat)
    requires IsRun(r, maxConnections) && k < |r.states| && HasSample(r.states[k].watcher)
    ensures j < k && r.steps[j] == OfWatcher(Sample)
    ensures forall i :: j < i < k ==> r.steps[i] != OfWatcher(Sample)
    ensures r.states[k].watcher.sample == r.states[j].nActive == CountIf(r.states[j].workers, IsCounted)
  {
    assert Linked(r, k - 1);
    var s, step := r.states[k - 1], r.steps[k - 1];
    if step == OfWatcher(Sample) {
      j := k - 1;
      ActiveCountIsExact(r, maxConnections, j);
    } else {
      SampleStays(s, step);
      j := SampleIsLoad(r, maxConnections, k - 1);
    }
  }

  lemma SampleStays(s: State, step: Step)
    requires Enabled(s, step) && step != OfWatcher(Sample) && HasSample(Apply(s, step).watcher)
    ensures HasSample(s.watcher) && Apply(s, step).watcher.sample == s.watcher.sample
  {
    match step
    case OfWorker(i, a) => assert Apply(s, step).watcher == s.watcher;
    case OfWatcher(a) => WatcherKeepsSample(s, a);
    case OfMain(a) => MainKeepsSample(s, a);
  }

  lemma WatcherKeepsSample(s: State, a: WatcherAction)
    requires WatcherEnabled(s, a) && !a.Sample? && HasSample(WatcherStep(s, a).watcher)
    ensures HasSample(s.watcher) && WatcherStep(s, a).watcher.sample == s.watcher.sample
  {
    assert a.UnlockShared? || a.LockWatcher?;
  }

  lemma MainKeepsSample(s: State, a: MainAction)
    requires MainEnabled(s, a)
    ensures HasSample(MainStep(s, a).watcher) ==> MainStep(s, a).watcher == s.watcher
  {
  }

  // ---------- a run under a constant load ----------

  /** No thread creation of the watcher fails in the first k steps. */
  predicate NoFailures(r: Run, k: nat)
    requires k <= |r.steps|
  {
    forall j :: 0 <= j < k ==> r.steps[j] != OfWatcher(GrowOne(false))
  }

  lemma {:induction false} OutcomesAreGood(r: Run, k: nat)
    requires k <= |r.steps| && NoFailures(r, k)
    ensures forall i :: 0 <= i < |Outcomes(r, k)| ==> Outcomes(r, k)[i]
  {
    if k == 0 {
    } else {
      OutcomesAreGood(r, k - 1);
    }
  }

  lemma {:induction false} PassesAreGood(r: Run, k: nat)
    requires k <= |r.steps| && |r.states| == |r.steps| + 1 && NoFailures(r, k)
    ensures forall i :: 0 <= i < |Passes(r, k)| ==> AllGood(Passes(r, k)[i])
  {
    if k == 0 {
    } else {
      PassesAreGood(r, k - 1);
      OutcomesAreGood(r, k);
    }
  }

  predicate AllGood(pass: Pass) {
    forall j :: 0 <= j < |pass.oks| ==> pass.oks[j]
  }

  /**
   In every run in which each pass found the load e and no creation fails, the size goes through the sequence SizeAt:
   so it is monotone, and from the max-th pass on it is settled for good.
   */
  lemma {:induction false} ConstantLoadRuns(r: Run, maxConnections: nat, k: nat, e: nat)
    requires IsRun(r, maxConnections) && k < |r.states| && NoFailures(r, k)
    requires forall i :: 0 <= i < |Passes(r, k)| ==> Passes(r, k)[i].executing == e
    ensures var max, n := |r.states[k].slots|, |Passes(r, k)|;
      && INITIAL_THREADS <= max && r.states[k].nSpawned == SizeAt(INITIAL_THREADS, e, max, n)
      && (n >= max ==> Settled(r.states[k].nSpawned, e, max))
  {
    SizesComeFromPasses(r, maxConnections, k);
    PassesAreGood(r, k);
    assert Steady(Passes(r, k), e) by {
      forall i | 0 <= i < |Passes(r, k)|
        ensures forall j :: 0 <= j < |Passes(r, k)[i].oks| ==> Passes(r, k)[i].oks[j]
      {
        assert AllGood(Passes(r, k)[i]);
      }
    }
    SteadyPasses(INITIAL_THREADS, e, |r.states[k].slots|, Passes(r, k));
    if |Passes(r, k)| >= |r.states[k].slots| {
      ReachesFixedPoint(INITIAL_THREADS, e, |r.states[k].slots|, |Passes(r, k)|);
    }
  }
}
