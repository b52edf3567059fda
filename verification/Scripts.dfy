/**
 Running scripts: the parent side of _execute_script, and what happens when many workers
 do it at once although each of them waits for any child.
 */
module Scripts {
  import opened Common
  import opened Streams
  import opened DynamicBuffer

  // ---------- one worker ----------

  /** fork with an interpreter to run a file in the child, write to its standard input, kill and wait. */
  datatype Call = Fork(interpreter: seq<char>, path: seq<char>) | Write(input: seq<char>) | KillChild | Wait

  /** The process calls made so far, in order. */
  class Processes {
    var calls: seq<Call>

    constructor ()
      ensures calls == []
    {
      calls := [];
    }

    method Do(call: Call)
      modifies this
      ensures calls == old(calls) + [call]
    {
      calls := calls + [call];
    }
  }

  /** Which of the system calls of one script run succeed. */
  datatype Luck = Luck(pipes: bool, fork: bool, alloc: bool, write: bool, mayFail: bool)

  /**
   The calls of one run: every child that is made gets the input, if there is memory for its output, one kill and one
   wait.
   */
  function RunOf(luck: Luck, interpreter: seq<char>, path: seq<char>, input: seq<char>): (calls: seq<Call>)
    ensures luck.pipes && luck.fork && luck.alloc ==> calls == [Fork(interpreter, path), Write(input), KillChild, Wait]
    ensures luck.pipes && luck.fork && !luck.alloc ==> calls == [Fork(interpreter, path), KillChild, Wait]
    ensures !luck.pipes || !luck.fork ==> calls == []
  {
    if !luck.pipes || !luck.fork then []
    else [Fork(interpreter, path)] + (if luck.alloc then [Write(input)] else []) + [KillChild, Wait]
  }

  /**
   Whatever fails, a successful fork is followed by exactly one kill and one wait of the same worker;
   the output is the whole of what the script wrote.
   */
  method ExecuteScript(os: Processes, luck: Luck, interpreter: seq<char>, path: seq<char>, input: seq<char>,
                       stdout: Pipe)
    returns (db: Buffer?)
    requires stdout.Valid()
    modifies os, stdout
    ensures db != null <==> luck.pipes && luck.fork && luck.alloc && luck.write
    ensures os.calls == old(os.calls) + RunOf(luck, interpreter, path, input)
    ensures db != null ==>
      && fresh(db) && fresh(db.buffer) && db.Valid() && db.mayFail == luck.mayFail
      && db.Contents() + stdout.Rest() == old(stdout.Rest()) && (!luck.mayFail ==> stdout.Rest() == [])
  {
    if !luck.pipes || !luck.fork {
      return null;
    }
    os.Do(Fork(interpreter, path));
    db := DynamicBufferIni(DEFAULT_FD_BUFFER, luck.alloc, luck.mayFail);
    if db == null {
      os.Do(KillChild);
      os.Do(Wait);
      return null;
    }
    os.Do(Write(input));
    if !luck.write {
      os.Do(KillChild);
      os.Do(Wait);
      return null;
    }
    var total := db.AppendFd(stdout);
    assert old(stdout.Rest()) == old(stdout.Rest())[..total] + old(stdout.Rest())[total..];
    os.Do(KillChild);
    os.Do(Wait);
  }

  // ---------- many workers ----------

  /** Running: alive and not killed; Dying: SIGKILL sent; Zombie: dead and not waited for. */
  datatype Status = Running | Dying | Zombie | Reaped

  datatype Child = Child(parent: nat, pid: nat, status: Status)

  /** Busy: between fork and kill; Waiting: in wait(). */
  datatype Runner = Idle | Busy(child: nat) | Waiting(child: nat)

  datatype State = State(runners: seq<Runner>, children: seq<Child>, forks: nat, waits: nat)

  datatype Step =
    | DoFork(w: nat, pid: nat)   // the kernel hands out any pid that no unreaped child has
    | DoKill(w: nat)
    | Die(c: nat)                // a child ends, by itself, by its alarm or by SIGKILL
    | DoWait(w: nat, c: nat)     // wait() reaps any dead child

  predicate Unreaped(c: Child) {
    !c.status.Reaped?
  }

  predicate IsRunning(c: Child) {
    c.status.Running?
  }

  predicate Doomed(c: Child) {
    c.status.Dying? || c.status.Zombie?
  }

  predicate InFlight(r: Runner) {
    !r.Idle?
  }

  predicate IsBusy(r: Runner) {
    r.Busy?
  }

  predicate IsWaiting(r: Runner) {
    r.Waiting?
  }

  predicate PidInUse(s: State, pid: nat) {
    exists c :: 0 <= c < |s.children| && Unreaped(s.children[c]) && s.children[c].pid == pid
  }

  function Init(n: nat): State {
    State(seq(n, _ => Idle), [], 0, 0)
  }

  predicate Enabled(s: State, step: Step) {
    match step
    case DoFork(w, pid) => w < |s.runners| && s.runners[w].Idle? && !PidInUse(s, pid)
    case DoKill(w) => w < |s.runners| && s.runners[w].Busy? && s.runners[w].child < |s.children|
    case Die(c) => c < |s.children| && (s.children[c].status.Running? || s.children[c].status.Dying?)
    case DoWait(w, c) => w < |s.runners| && s.runners[w].Waiting? && c < |s.children| && s.children[c].status.Zombie?
  }

  /** The children after SIGKILL to a pid: whichever unreaped child has it now. */
  function Killed(children: seq<Child>, pid: nat): (r: seq<Child>)
    ensures |r| == |children|
    ensures forall c :: 0 <= c < |r| ==>
      r[c] == if children[c].pid == pid && children[c].status.Running? then children[c].(status := Dying)
        else children[c]
  {
    seq(|children|, c requires 0 <= c < |children| =>
      if children[c].pid == pid && children[c].status.Running? then children[c].(status := Dying) else children[c])
  }

  function Apply(s: State, step: Step): State
    requires Enabled(s, step)
  {
    match step
    case DoFork(w, pid) =>
      s.(runners := s.runners[w := Busy(|s.children|)], children := s.children + [Child(w, pid, Running)],
         forks := s.forks + 1)
    case DoKill(w) =>
      s.(runners := s.runners[w := Waiting(s.runners[w].child)],
         children := Killed(s.children, s.children[s.runners[w].child].pid))
    case Die(c) =>
      s.(children := s.children[c := s.children[c].(status := Zombie)])
    case DoWait(w, c) =>
      s.(runners := s.runners[w := Idle], children := s.children[c := s.children[c].(status := Reaped)],
         waits := s.waits + 1)
  }

  ghost predicate IsRun(n: nat, states: seq<State>, steps: seq<Step>) {
    && |states| == |steps| + 1 && states[0] == Init(n)
    && forall k :: 0 <= k < |steps| ==> Enabled(states[k], steps[k]) && states[k + 1] == Apply(states[k], steps[k])
  }

  /** A running child is the one its parent has not killed yet, and unreaped children have different pids. */
  ghost predicate KinOk(s: State) {
    && (forall w :: 0 <= w < |s.runners| && s.runners[w].Busy? ==>
          s.runners[w].child < |s.children| && s.children[s.runners[w].child].parent == w)
    && (forall c :: 0 <= c < |s.children| && IsRunning(s.children[c]) ==>
          s.children[c].parent < |s.runners| && s.runners[s.children[c].parent] == Busy(c))
    && (forall c, d :: 0 <= c < d < |s.children| && Unreaped(s.children[c]) && Unreaped(s.children[d]) ==>
          s.children[c].pid != s.children[d].pid)
  }

  /** Every fork is still in flight or has been waited for. */
  ghost predicate CountsOk(s: State) {
    && s.forks == |s.children|
    && s.forks == s.waits + CountIf(s.children, Unreaped)
    && CountIf(s.children, Unreaped) == CountIf(s.runners, InFlight)
  }

  lemma KinKill(s: State, w: nat)
    requires KinOk(s) && Enabled(s, DoKill(w))
    ensures KinOk(Apply(s, DoKill(w)))
  {
    var own := s.runners[w].child;
    assert forall c :: 0 <= c < |s.children| && IsRunning(s.children[c]) && s.children[c].parent == w ==> c == own;
  }

  lemma KinFork(s: State, w: nat, pid: nat)
    requires KinOk(s) && Enabled(s, DoFork(w, pid))
    ensures KinOk(Apply(s, DoFork(w, pid)))
  {
  }

  lemma KinStep(s: State, step: Step)
    requires KinOk(s) && Enabled(s, step)
    ensures KinOk(Apply(s, step))
  {
    match step
    case DoFork(w, pid) => KinFork(s, w, pid);
    case DoKill(w) => KinKill(s, w);
    case Die(c) =>
    case DoWait(w, c) =>
  }

  lemma {:induction false} KilledKeepsUnreaped(children: seq<Child>, pid: nat)
    ensures CountIf(Killed(children, pid), Unreaped) == CountIf(children, Unreaped)
  {
    if children == [] {
    } else {
      var last := |children| - 1;
      assert Killed(children, pid)[..last] == Killed(children[..last], pid);
      KilledKeepsUnreaped(children[..last], pid);
    }
  }

  lemma CountsStep(s: State, step: Step)
    requires CountsOk(s) && Enabled(s, step)
    ensures CountsOk(Apply(s, step))
  {
    match step
    case DoFork(w, pid) =>
      CountIfAppend(s.children, Unreaped, Child(w, pid, Running));
      CountIfUpdate(s.runners, InFlight, w, Busy(|s.children|));
    case DoKill(w) =>
      KilledKeepsUnreaped(s.children, s.children[s.runners[w].child].pid);
      CountIfUpdate(s.runners, InFlight, w, Waiting(s.runners[w].child));
    case Die(c) =>
      CountIfUpdate(s.children, Unreaped, c, s.children[c].(status := Zombie));
    case DoWait(w, c) =>
      CountIfUpdate(s.children, Unreaped, c, s.children[c].(status := Reaped));
      CountIfUpdate(s.runners, InFlight, w, Idle);
  }

  lemma {:induction false} RunsAreOk(n: nat, states: seq<State>, steps: seq<Step>, k: nat)
    requires IsRun(n, states, steps) && k < |states|
    ensures KinOk(states[k]) && CountsOk(states[k])
  {
    if k == 0 {
      NoneInFlight(states[0].runners);
    } else {
      RunsAreOk(n, states, steps, k - 1);
      KinStep(states[k - 1], steps[k - 1]);
      CountsStep(states[k - 1], steps[k - 1]);
    }
  }

  lemma {:induction false} NoneInFlight(runners: seq<Runner>)
    requires forall w :: 0 <= w < |runners| ==> runners[w].Idle?
    ensures CountIf(runners, InFlight) == 0
  {
    CountIfWitness(runners, InFlight);
  }

  // ---------- nobody waits for ever ----------

  /** Busy with one of the first k children. */
  function BusyBelow(k: nat): Runner -> bool {
    (r: Runner) => r.Busy? && r.child < k
  }

  lemma {:induction false} CountIfWider<T>(s: seq<T>, p: T -> bool, q: T -> bool)
    requires forall x :: p(x) ==> q(x)
    ensures CountIf(s, p) <= CountIf(s, q)
    ensures (exists i :: 0 <= i < |s| && q(s[i]) && !p(s[i])) ==> CountIf(s, p) < CountIf(s, q)
  {
    if s == [] {
    } else {
      var last := |s| - 1;
      CountIfWider(s[..last], p, q);
      if i :| 0 <= i < |s| && q(s[i]) && !p(s[i]) && i < last {
        assert s[..last][i] == s[i];
      }
    }
  }

  /** Running children are told apart by the workers that have yet to kill them. */
  lemma {:induction false} RunningAtMostBusy(s: State, k: nat)
    requires KinOk(s) && k <= |s.children|
    ensures CountIf(s.children[..k], IsRunning) <= CountIf(s.runners, BusyBelow(k))
  {
    if k == 0 {
    } else {
      RunningAtMostBusy(s, k - 1);
      assert s.children[..k][..k - 1] == s.children[..k - 1];
      CountIfWider(s.runners, BusyBelow(k - 1), BusyBelow(k));
      if IsRunning(s.children[k - 1]) {
        var w := s.children[k - 1].parent;
        assert BusyBelow(k)(s.runners[w]) && !BusyBelow(k - 1)(s.runners[w]);
      }
    }
  }

  lemma {:induction false} UnreapedSplits(children: seq<Child>)
    ensures CountIf(children, Unreaped) == CountIf(children, IsRunning) + CountIf(children, Doomed)
  {
    if children == [] {
    } else {
      UnreapedSplits(children[..|children| - 1]);
    }
  }

  lemma {:induction false} InFlightSplits(runners: seq<Runner>)
    ensures CountIf(runners, InFlight) == CountIf(runners, IsBusy) + CountIf(runners, IsWaiting)
  {
    if runners == [] {
    } else {
      InFlightSplits(runners[..|runners| - 1]);
    }
  }

  /** There are always at least as many dead or dying children to reap as there are workers waiting for one. */
  lemma EnoughToReap(n: nat, states: seq<State>, steps: seq<Step>, k: nat)
    requires IsRun(n, states, steps) && k < |states|
    ensures CountIf(states[k].children, Doomed) >= CountIf(states[k].runners, IsWaiting)
  {
    var s := states[k];
    RunsAreOk(n, states, steps, k);
    UnreapedSplits(s.children);
    InFlightSplits(s.runners);
    RunningAtMostBusy(s, |s.children|);
    assert s.children[..|s.children|] == s.children;
    CountIfWider(s.runners, BusyBelow(|s.children|), IsBusy);
  }

  /** So no waiter starves: its wait can return now, or as soon as one killed child has died. */
  lemma WaitersNeverStarve(n: nat, states: seq<State>, steps: seq<Step>, k: nat, w: nat) returns (c: nat)
    requires IsRun(n, states, steps) && k < |states| && w < |states[k].runners| && states[k].runners[w].Waiting?
    ensures Enabled(states[k], DoWait(w, c)) ||
            (Enabled(states[k], Die(c)) && states[k].children[c].status.Dying?
              && Enabled(Apply(states[k], Die(c)), DoWait(w, c)))
  {
    var s := states[k];
    EnoughToReap(n, states, steps, k);
    CountIfWitness(s.runners, IsWaiting);
    CountIfWitness(s.children, Doomed);
    c :| 0 <= c < |s.children| && Doomed(s.children[c]);
  }

  /**
   Every fork is matched by one wait: the difference is the number of scripts in flight, and at rest every child has
   been reaped.
   */
  lemma ForksMatchWaits(n: nat, states: seq<State>, steps: seq<Step>, k: nat)
    requires IsRun(n, states, steps) && k < |states|
    ensures var s := states[k];
      && s.forks == s.waits + CountIf(s.runners, InFlight)
      && ((forall w :: 0 <= w < |s.runners| ==> s.runners[w].Idle?) ==>
            s.forks == s.waits && forall c :: 0 <= c < |s.children| ==> s.children[c].status.Reaped?)
  {
    var s := states[k];
    RunsAreOk(n, states, steps, k);
    if forall w :: 0 <= w < |s.runners| ==> s.runners[w].Idle? {
      NoneInFlight(s.runners);
      CountIfWitness(s.children, Unreaped);
    }
  }

  /**
   A kill reaches a script of another worker exactly when one's own child has been reaped and its pid given out again.
   */
  lemma KillHitsForeignIff(n: nat, states: seq<State>, steps: seq<Step>, k: nat, w: nat, c: nat)
    requires IsRun(n, states, steps) && k < |states| && Enabled(states[k], DoKill(w)) && c < |states[k].children|
    ensures var s, own := states[k], states[k].children[states[k].runners[w].child];
      s.children[c].status.Running? && s.children[c].parent != w && Apply(s, DoKill(w)).children[c].status.Dying? <==>
      own.status.Reaped? && s.children[c].pid == own.pid && s.children[c].status.Running?
  {
    RunsAreOk(n, states, steps, k);
  }

  /** The states of a run in which it does happen. */
  function ForeignKillState(k: nat): State
  {
    match k
    case 0 => State([Idle, Idle, Idle], [], 0, 0)
    case 1 => State([Busy(0), Idle, Idle], [Child(0, 5, Running)], 1, 0)
    case 2 => State([Busy(0), Busy(1), Idle], [Child(0, 5, Running), Child(1, 6, Running)], 2, 0)
    case 3 => State([Busy(0), Waiting(1), Idle], [Child(0, 5, Running), Child(1, 6, Dying)], 2, 0)
    case 4 => State([Busy(0), Waiting(1), Idle], [Child(0, 5, Zombie), Child(1, 6, Dying)], 2, 0)
    case 5 => State([Busy(0), Idle, Idle], [Child(0, 5, Reaped), Child(1, 6, Dying)], 2, 1)
    case 6 => State([Busy(0), Idle, Busy(2)], [Child(0, 5, Reaped), Child(1, 6, Dying), Child(2, 5, Running)], 3, 1)
    case _ => State([Waiting(0), Idle, Busy(2)], [Child(0, 5, Reaped), Child(1, 6, Dying), Child(2, 5, Dying)], 3, 1)
  }

  function ForeignKillStep(k: nat): Step {
    match k
    case 0 => DoFork(0, 5)
    case 1 => DoFork(1, 6)
    case 2 => DoKill(1)
    case 3 => Die(0)
    case 4 => DoWait(1, 0)
    case 5 => DoFork(2, 5)
    case _ => DoKill(0)
  }

  lemma ForeignKillLink(k: nat)
    requires k < 7
    ensures Enabled(ForeignKillState(k), ForeignKillStep(k))
    ensures ForeignKillState(k + 1) == Apply(ForeignKillState(k), ForeignKillStep(k))
  {
    var s := ForeignKillState(k);
    if k <= 2 {
      assert k == 0 || k == 1 || k == 2;
    } else {
      assert k == 3 || k == 4 || k == 5 || k == 6;
    }
    assert ForeignKillState(k + 1).children == Apply(s, ForeignKillStep(k)).children;
  }

  /**
   It does happen: worker 1 reaps worker 0's child, worker 2 is given its pid, and worker 0 then kills worker 2's
   script.
   */
  lemma KillCanHitForeign() returns (states: seq<State>, steps: seq<Step>)
    ensures IsRun(3, states, steps) && |states| == 8 && |states[7].runners| == |states[7].children| == 3
    ensures states[7].runners[2] == Busy(2) && states[7].children[2] == Child(2, 5, Dying)
  {
    states := seq(8, k requires 0 <= k => ForeignKillState(k));
    steps := seq(7, k requires 0 <= k => ForeignKillStep(k));
    assert states[0].runners == Init(3).runners;
    forall k | 0 <= k < 7
      ensures Enabled(states[k], steps[k]) && states[k + 1] == Apply(states[k], steps[k])
    {
      ForeignKillLink(k);
    }
  }
}
