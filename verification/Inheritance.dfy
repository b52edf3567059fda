/**
 Pipes and forks of several workers at once. A child starts with a copy of every pipe end the server has open just
 then, its own and those of other workers' scripts, and a pipe is at its end only when nobody holds its write end.
 */
module Inheritance {
  /** One end of the stdin or the stdout pipe of a script. */
  datatype PipeEnd = PipeEnd(script: nat, stdout: bool, write: bool)

  function StdinRead(j: nat): PipeEnd { PipeEnd(j, false, false) }
  function StdinWrite(j: nat): PipeEnd { PipeEnd(j, false, true) }
  function StdoutRead(j: nat): PipeEnd { PipeEnd(j, true, false) }
  function StdoutWrite(j: nat): PipeEnd { PipeEnd(j, true, true) }

  /** Where a worker is in _execute_script. Abandoned: fork failed, and the pipes stay open. */
  datatype Stage = Half | Piped | Forked | Writing | Draining | Finished | Abandoned

  /** listens: the script reads its standard input to the end before it exits. */
  datatype Kid = Kid(alive: bool, execed: bool, listens: bool, held: set<PipeEnd>)

  datatype Script = Script(stage: Stage, kid: Kid)

  /** held: the ends the server process has open. */
  datatype State = State(scripts: seq<Script>, held: set<PipeEnd>)

  datatype Step =
    | MakeStdin(listens: bool) | MakeStdout(j: nat) | Fork(j: nat) | ForkFails(j: nat)
    | Exec(j: nat)             // the child has closed the server's ends of its own pipes
    | CloseChildEnds(j: nat) | CloseStdin(j: nat)
    | DrainEnds(j: nat)        // read() returns 0; the worker closes its end and kills its child
    | Exit(j: nat) | Alarm(j: nat)

  function Init(): State {
    State([], {})
  }

  predicate HeldByKid(s: State, e: PipeEnd) {
    exists i :: 0 <= i < |s.scripts| && KidHolds(s, i, e)
  }

  predicate KidHolds(s: State, i: nat, e: PipeEnd)
    requires i < |s.scripts|
  {
    s.scripts[i].kid.alive && e in s.scripts[i].kid.held
  }

  /** A read behind this write end finds the end of the stream once the pipe is empty. */
  predicate EndOfFile(s: State, e: PipeEnd) {
    e !in s.held && !HeldByKid(s, e)
  }

  predicate AtStage(s: State, j: nat, stage: Stage) {
    j < |s.scripts| && s.scripts[j].stage == stage
  }

  predicate Enabled(s: State, step: Step, timeout: int) {
    match step
    case MakeStdin(_) => true
    case MakeStdout(j) => AtStage(s, j, Half)
    case Fork(j) => AtStage(s, j, Piped)
    case ForkFails(j) => AtStage(s, j, Piped)
    case Exec(j) => j < |s.scripts| && s.scripts[j].kid.alive && !s.scripts[j].kid.execed
    case CloseChildEnds(j) => AtStage(s, j, Forked)
    case CloseStdin(j) => AtStage(s, j, Writing)
    case DrainEnds(j) => AtStage(s, j, Draining) && EndOfFile(s, StdoutWrite(j))
    case Exit(j) =>
      && j < |s.scripts| && s.scripts[j].kid.alive && s.scripts[j].kid.execed
      && (s.scripts[j].kid.listens ==> EndOfFile(s, StdinWrite(j)))
    case Alarm(j) => j < |s.scripts| && s.scripts[j].kid.alive && timeout > 0
  }

  function At(s: State, j: nat, stage: Stage): State
    requires j < |s.scripts|
  {
    s.(scripts := s.scripts[j := s.scripts[j].(stage := stage)])
  }

  function WithKid(s: State, j: nat, kid: Kid): State
    requires j < |s.scripts|
  {
    s.(scripts := s.scripts[j := s.scripts[j].(kid := kid)])
  }

  function Apply(s: State, step: Step, timeout: int): State
    requires Enabled(s, step, timeout)
  {
    match step
    case MakeStdin(listens) =>
      var j := |s.scripts|;
      State(s.scripts + [Script(Half, Kid(false, false, listens, {}))], s.held + {StdinRead(j), StdinWrite(j)})
    case MakeStdout(j) => At(s, j, Piped).(held := s.held + {StdoutRead(j), StdoutWrite(j)})
    case Fork(j) => WithKid(At(s, j, Forked), j, s.scripts[j].kid.(alive := true, held := s.held))
    case ForkFails(j) => At(s, j, Abandoned)
    case Exec(j) =>
      var kid := s.scripts[j].kid;
      WithKid(s, j, kid.(execed := true, held := kid.held - {StdinWrite(j), StdoutRead(j)}))
    case CloseChildEnds(j) => At(s, j, Writing).(held := s.held - {StdinRead(j), StdoutWrite(j)})
    case CloseStdin(j) => At(s, j, Draining).(held := s.held - {StdinWrite(j)})
    case DrainEnds(j) =>
      WithKid(At(s, j, Finished), j, s.scripts[j].kid.(alive := false)).(held := s.held - {StdoutRead(j)})
    case Exit(j) => WithKid(s, j, s.scripts[j].kid.(alive := false))
    case Alarm(j) => WithKid(s, j, s.scripts[j].kid.(alive := false))
  }

  datatype Run = Run(states: seq<State>, steps: seq<Step>)

  ghost predicate Linked(r: Run, k: nat, timeout: int)
    requires |r.states| == |r.steps| + 1 && k < |r.steps|
  {
    Enabled(r.states[k], r.steps[k], timeout) && r.states[k + 1] == Apply(r.states[k], r.steps[k], timeout)
  }

  ghost predicate IsRun(r: Run, timeout: int) {
    && |r.states| == |r.steps| + 1 && r.states[0] == Init()
    && forall k :: 0 <= k < |r.steps| ==> Linked(r, k, timeout)
  }

  function Last(r: Run): State
    requires r.states != []
  {
    r.states[|r.states| - 1]
  }

  // ---------- which ends are open ----------

  /** Between pipe() and close() of the write end of a script's stdout. */
  predicate StdoutOpen(stage: Stage) {
    stage == Piped || stage == Forked || stage == Abandoned
  }

  /** What the server has open of a script's pipes, stage by stage. */
  predicate ServerEnds(s: State, j: nat)
    requires j < |s.scripts|
  {
    var stage := s.scripts[j].stage;
    && (StdinRead(j) in s.held <==> stage == Half || StdoutOpen(stage))
    && (StdinWrite(j) in s.held <==> stage == Half || StdoutOpen(stage) || stage == Writing)
    && (StdoutWrite(j) in s.held <==> StdoutOpen(stage))
    && (StdoutRead(j) in s.held <==> StdoutOpen(stage) || stage == Writing || stage == Draining)
  }

  ghost predicate ServerOk(s: State) {
    && (forall j :: 0 <= j < |s.scripts| ==> ServerEnds(s, j))
    && (forall e :: e in s.held ==> e.script < |s.scripts|)
  }

  /** What a child has open of its own pipes: all four ends, and after its exec only its own two. */
  predicate KidEnds(s: State, j: nat)
    requires j < |s.scripts|
  {
    var stage, kid := s.scripts[j].stage, s.scripts[j].kid;
    && (stage == Forked || stage == Writing || stage == Draining ==>
         StdinRead(j) in kid.held && StdoutWrite(j) in kid.held)
    && (kid.execed ==> StdinWrite(j) !in kid.held && StdoutRead(j) !in kid.held)
    && (kid.alive ==> stage == Forked || stage == Writing || stage == Draining)
    && (kid.execed ==> stage == Forked || stage == Writing || stage == Draining || stage == Finished)
    && (stage == Half || stage == Piped || stage == Abandoned ==> !kid.alive && !kid.execed)
  }

  ghost predicate KidsOk(s: State) {
    && (forall j :: 0 <= j < |s.scripts| ==> KidEnds(s, j))
    && (forall i, e :: 0 <= i < |s.scripts| && e in s.scripts[i].kid.held ==> e.script < |s.scripts|)
  }

  ghost predicate Inv(s: State) {
    ServerOk(s) && KidsOk(s)
  }

  lemma ServerStep(s: State, step: Step, timeout: int)
    requires ServerOk(s) && Enabled(s, step, timeout)
    ensures ServerOk(Apply(s, step, timeout))
  {
    var s' := Apply(s, step, timeout);
    forall j | 0 <= j < |s'.scripts|
      ensures ServerEnds(s', j)
    {
      assert j < |s.scripts| ==> ServerEnds(s, j);
    }
  }

  lemma KidsStep(s: State, step: Step, timeout: int)
    requires Inv(s) && Enabled(s, step, timeout)
    ensures KidsOk(Apply(s, step, timeout))
  {
    var s' := Apply(s, step, timeout);
    forall j | 0 <= j < |s'.scripts|
      ensures KidEnds(s', j)
    {
      assert j < |s.scripts| ==> KidEnds(s, j) && ServerEnds(s, j);
    }
  }

  lemma InvStep(s: State, step: Step, timeout: int)
    requires Inv(s) && Enabled(s, step, timeout)
    ensures Inv(Apply(s, step, timeout))
  {
    ServerStep(s, step, timeout);
    KidsStep(s, step, timeout);
  }

  lemma {:induction false} RunsKeepInv(r: Run, timeout: int, k: nat)
    requires IsRun(r, timeout) && k < |r.states|
    ensures Inv(r.states[k])
  {
    if k == 0 {
    } else {
      RunsKeepInv(r, timeout, k - 1);
      assert Linked(r, k - 1, timeout);
      InvStep(r.states[k - 1], r.steps[k - 1], timeout);
    }
  }

  // ---------- when a drain ends ----------

  /** A drain can end exactly when no living child, of whichever worker, holds the write end of this stdout. */
  lemma DrainEndsIff(r: Run, timeout: int, k: nat, j: nat)
    requires IsRun(r, timeout) && k < |r.states| && AtStage(r.states[k], j, Draining)
    ensures Enabled(r.states[k], DrainEnds(j), timeout) <==>
      forall i :: 0 <= i < |r.states[k].scripts| ==> !KidHolds(r.states[k], i, StdoutWrite(j))
  {
    RunsKeepInv(r, timeout, k);
    assert ServerEnds(r.states[k], j);
  }

  /**
   A child gets hold of the write ends of another script's pipes exactly when it is forked between their pipe() and the
   server's close().
   */
  lemma InheritsIff(r: Run, timeout: int, k: nat, i: nat, j: nat)
    requires IsRun(r, timeout) && k < |r.steps| && r.steps[k] == Fork(i) && j < |r.states[k].scripts| && i != j
    ensures i < |r.states[k + 1].scripts|
    ensures KidHolds(r.states[k + 1], i, StdoutWrite(j)) <==> StdoutOpen(r.states[k].scripts[j].stage)
    ensures KidHolds(r.states[k + 1], i, StdinWrite(j)) <==>
      var stage := r.states[k].scripts[j].stage; stage == Half || StdoutOpen(stage) || stage == Writing
  {
    RunsKeepInv(r, timeout, k);
    assert Linked(r, k, timeout);
    assert ServerEnds(r.states[k], j);
  }

  /**
   A child that reads its input to the end can exit exactly when no living child has the other end of it open; its own
   is closed.
   */
  lemma ExitIff(r: Run, timeout: int, k: nat, j: nat)
    requires IsRun(r, timeout) && k < |r.states| && AtStage(r.states[k], j, Draining)
    requires r.states[k].scripts[j].kid.alive && r.states[k].scripts[j].kid.execed
    ensures !KidHolds(r.states[k], j, StdinWrite(j))
    ensures Enabled(r.states[k], Exit(j), timeout) <==>
      r.states[k].scripts[j].kid.listens ==>
        forall i :: 0 <= i < |r.states[k].scripts| ==> !KidHolds(r.states[k], i, StdinWrite(j))
  {
    RunsKeepInv(r, timeout, k);
    assert ServerEnds(r.states[k], j) && KidEnds(r.states[k], j);
  }

  /** Nobody but script j's own child has an end of its pipes open that matters to it. */
  predicate Alone(s: State, j: nat) {
    forall i :: 0 <= i < |s.scripts| && i != j ==> !KidHolds(s, i, StdinWrite(j)) && !KidHolds(s, i, StdoutWrite(j))
  }

  /** A script that no other child interferes with can exit, and its drain can then end. */
  lemma AloneFinishes(r: Run, timeout: int, k: nat, j: nat)
    requires IsRun(r, timeout) && k < |r.states| && AtStage(r.states[k], j, Draining) && Alone(r.states[k], j)
    requires r.states[k].scripts[j].kid.alive && r.states[k].scripts[j].kid.execed
    ensures Enabled(r.states[k], Exit(j), timeout)
    ensures Enabled(Apply(r.states[k], Exit(j), timeout), DrainEnds(j), timeout)
    ensures AtStage(Apply(Apply(r.states[k], Exit(j), timeout), DrainEnds(j), timeout), j, Finished)
  {
    ExitIff(r, timeout, k, j);
    RunsKeepInv(r, timeout, k);
    var s' := Apply(r.states[k], Exit(j), timeout);
    assert ServerEnds(r.states[k], j);
    forall i | 0 <= i < |s'.scripts|
      ensures !KidHolds(s', i, StdoutWrite(j))
    {
      assert i != j ==> KidHolds(s', i, StdoutWrite(j)) == KidHolds(r.states[k], i, StdoutWrite(j));
    }
  }

  /** While a script is drained, nobody new gets hold of its stdout. */
  lemma HoldersOnlyLeave(s: State, step: Step, timeout: int, j: nat, i: nat)
    requires Inv(s) && Enabled(s, step, timeout) && AtStage(s, j, Draining)
    ensures AtStage(Apply(s, step, timeout), j, Draining) || step == DrainEnds(j)
    ensures i < |Apply(s, step, timeout).scripts| && KidHolds(Apply(s, step, timeout), i, StdoutWrite(j)) ==>
      i < |s.scripts| && KidHolds(s, i, StdoutWrite(j))
  {
    assert ServerEnds(s, j);
  }

  /**
   With a timeout no drain is stuck: it can end, or the alarm of one of the holders can still go off, which ends that
   one.
   */
  lemma TimeoutFrees(r: Run, timeout: int, k: nat, j: nat) returns (i: nat)
    requires IsRun(r, timeout) && k < |r.states| && AtStage(r.states[k], j, Draining) && timeout > 0
    ensures Enabled(r.states[k], DrainEnds(j), timeout) || (
              && i < |r.states[k].scripts| && KidHolds(r.states[k], i, StdoutWrite(j))
                   && Enabled(r.states[k], Alarm(i), timeout)
              && !KidHolds(Apply(r.states[k], Alarm(i), timeout), i, StdoutWrite(j)))
  {
    DrainEndsIff(r, timeout, k, j);
    i := 0;
    if !Enabled(r.states[k], DrainEnds(j), timeout) {
      i :| 0 <= i < |r.states[k].scripts| && KidHolds(r.states[k], i, StdoutWrite(j));
    }
  }

  // ---------- two workers that drain for ever ----------

  /** Script i reads its input to the end, and script k holds the other end of it. */
  predicate WaitsFor(s: State, i: nat, k: nat) {
    && i < |s.scripts| && k < |s.scripts|
    && s.scripts[i].stage == Draining && s.scripts[i].kid.alive && s.scripts[i].kid.execed && s.scripts[i].kid.listens
    && StdoutWrite(i) in s.scripts[i].kid.held && StdinWrite(k) in s.scripts[i].kid.held
  }

  /** Two scripts each hold the other's input open, and both workers drain. */
  predicate Deadlocked(s: State, i: nat, k: nat) {
    i != k && WaitsFor(s, i, k) && WaitsFor(s, k, i)
  }

  lemma DeadlockStays(s: State, step: Step, timeout: int, i: nat, k: nat)
    requires Deadlocked(s, i, k) && Enabled(s, step, timeout) && timeout <= 0
    ensures Deadlocked(Apply(s, step, timeout), i, k)
  {
    assert KidHolds(s, i, StdoutWrite(i)) && KidHolds(s, k, StdoutWrite(k));
    assert KidHolds(s, i, StdinWrite(k)) && KidHolds(s, k, StdinWrite(i));
  }

  /** Without a timeout they do so for ever, whatever the other workers and scripts do. */
  lemma {:induction false} DeadlockIsForEver(r: Run, timeout: int, m: nat, n: nat, i: nat, k: nat)
    requires IsRun(r, timeout) && timeout <= 0 && m <= n < |r.states| && Deadlocked(r.states[m], i, k)
    ensures Deadlocked(r.states[n], i, k)
    ensures !Enabled(r.states[n], DrainEnds(i), timeout) && !Enabled(r.states[n], DrainEnds(k), timeout)
    decreases n
  {
    if m == n {
    } else {
      DeadlockIsForEver(r, timeout, m, n - 1, i, k);
      assert Linked(r, n - 1, timeout);
      DeadlockStays(r.states[n - 1], r.steps[n - 1], timeout, i, k);
    }
    assert KidHolds(r.states[n], i, StdoutWrite(i)) && KidHolds(r.states[n], k, StdoutWrite(k));
  }

  lemma Extend(r: Run, step: Step, timeout: int) returns (r': Run)
    requires IsRun(r, timeout) && Enabled(Last(r), step, timeout)
    ensures IsRun(r', timeout) && Last(r') == Apply(Last(r), step, timeout)
  {
    r' := Run(r.states + [Apply(Last(r), step, timeout)], r.steps + [step]);
    forall k | 0 <= k < |r'.steps|
      ensures Linked(r', k, timeout)
    {
      assert k < |r.steps| ==> Linked(r, k, timeout);
    }
  }

  /** Two workers make their pipes for scripts that read their input. */
  lemma BothPiped(timeout: int) returns (r: Run)
    ensures IsRun(r, timeout)
    ensures var s := Last(r);
      && |s.scripts| == 2 && s.scripts[0] == s.scripts[1] == Script(Piped, Kid(false, false, true, {}))
      && {StdinWrite(0), StdoutWrite(0), StdinWrite(1), StdoutWrite(1)} <= s.held
  {
    r := Run([Init()], []);
    r := Extend(r, MakeStdin(true), timeout);
    r := Extend(r, MakeStdout(0), timeout);
    r := Extend(r, MakeStdin(true), timeout);
    r := Extend(r, MakeStdout(1), timeout);
  }

  /** They fork, and both children inherit everything but close only what belongs to their own pipes. */
  lemma BothForked(timeout: int) returns (r: Run)
    ensures IsRun(r, timeout)
    ensures var s := Last(r);
      && |s.scripts| == 2 && s.scripts[0].stage == s.scripts[1].stage == Forked
      && (forall i :: 0 <= i < 2 ==> s.scripts[i].kid.alive && s.scripts[i].kid.execed && s.scripts[i].kid.listens)
      && {StdoutWrite(0), StdinWrite(1)} <= s.scripts[0].kid.held
           && {StdoutWrite(1), StdinWrite(0)} <= s.scripts[1].kid.held
  {
    r := BothPiped(timeout);
    r := Extend(r, Fork(0), timeout);
    r := Extend(r, Fork(1), timeout);
    r := Extend(r, Exec(0), timeout);
    r := Extend(r, Exec(1), timeout);
  }

  /** It happens: two requests for a script that reads its input, at the same time. */
  lemma DeadlockHappens(timeout: int) returns (r: Run)
    ensures IsRun(r, timeout) && Deadlocked(Last(r), 0, 1)
  {
    r := BothForked(timeout);
    r := Extend(r, CloseChildEnds(0), timeout);
    r := Extend(r, CloseChildEnds(1), timeout);
    r := Extend(r, CloseStdin(0), timeout);
    r := Extend(r, CloseStdin(1), timeout);
  }

  lemma OneScriptDrains(timeout: int, listens: bool) returns (r: Run)
    ensures IsRun(r, timeout) && |Last(r).scripts| == 1 && AtStage(Last(r), 0, Draining)
    ensures Last(r).scripts[0].kid.alive && Last(r).scripts[0].kid.execed
  {
    r := Run([Init()], []);
    r := Extend(r, MakeStdin(listens), timeout);
    r := Extend(r, MakeStdout(0), timeout);
    r := Extend(r, Fork(0), timeout);
    r := Extend(r, Exec(0), timeout);
    r := Extend(r, CloseChildEnds(0), timeout);
    r := Extend(r, CloseStdin(0), timeout);
  }

  /** One script alone gets all the way to its end, with or without a timeout, and nothing is left open. */
  lemma OneScriptFinishes(timeout: int, listens: bool) returns (r: Run)
    ensures IsRun(r, timeout) && |Last(r).scripts| == 1 && AtStage(Last(r), 0, Finished)
    ensures Last(r).held == {} && !Last(r).scripts[0].kid.alive
  {
    r := OneScriptDrains(timeout, listens);
    AloneFinishes(r, timeout, |r.steps|, 0);
    r := Extend(r, Exit(0), timeout);
    r := Extend(r, DrainEnds(0), timeout);
    RunsKeepInv(r, timeout, |r.steps|);
    NothingLeft(Last(r));
  }

  /** When every script is over, the server has no pipe end open. */
  lemma NothingLeft(s: State)
    requires Inv(s) && forall j :: 0 <= j < |s.scripts| ==> s.scripts[j].stage == Finished
    ensures s.held == {}
  {
    forall e
      ensures e !in s.held
    {
      assert e == PipeEnd(e.script, e.stdout, e.write);
      assert e.script < |s.scripts| ==> ServerEnds(s, e.script);
    }
  }
}
