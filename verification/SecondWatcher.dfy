/** cli/docker.go, lines 368-373: the goroutine that waits for the restarted
    dockerd and ends envbox when it exits. Whether it waits for the right process
    depends on when isProcExited answers. */
module SecondWatcher {
  import opened GoText
  import opened Process
  import opened Ownership
  import opened DockerdFlow

  /** The assumption of Ownership, in runs of the flow. */
  predicate FlowTimely(f: Flow, step: FlowStep) {
    ProcStep(f, step).Some? ==> Timely(f.proc, ProcStep(f, step).value)
  }

  predicate TimelyFlow(f: Flow, steps: seq<FlowStep>)
    decreases |steps|
  {
    steps == [] ||
    (var front := steps[..|steps| - 1];
     && TimelyFlow(f, front)
     && (FlowRun(f, front).Some? ==> FlowTimely(FlowRun(f, front).value, steps[|steps| - 1])))
  }

  /** The goroutine ends envbox only over a replacement that has exited. */
  predicate FatalOnlyAfterExit(f: Flow) {
    f.second == SFatal ==> |f.proc.gens| == 2 && f.proc.gens[1].reaped
  }

  ghost predicate SecondIsSafe(f: Flow) {
    FlowInv(f) && OwnInv(f.proc) && FatalOnlyAfterExit(f)
  }

  /** Whoever can receive from a channel that its own waiter uses finds that the
      generation has exited. */
  lemma ReceivableMeansReaped(s: State, c: nat)
    requires KillInv(s) && OwnInv(s) && Enabled(s, Receive(c))
    ensures s.gens[c].reaped
  {
    assert Owned(c, s.gens[c]) && KillStory(c, s.gens[c]);
  }

  lemma SecondReceiveIsSafe(f: Flow)
    requires SecondIsSafe(f) && FlowEnabled(f, SecondReceive)
    ensures FatalOnlyAfterExit(FlowApply(f, SecondReceive))
  {
    var c := f.second.ch;
    ReceivableMeansReaped(f.proc, c);
    StepIsLater(f.proc, Receive(c));
    assert GenLater(f.proc.gens[c], Apply(f.proc, Receive(c)).gens[c]);
    assert |Apply(f.proc, Receive(c)).gens| == |f.proc.gens|;
  }

  /** Once fatal, the goroutine stays so, and no other step makes it fatal. */
  lemma FatalComesFromReceive(f: Flow, step: FlowStep)
    requires FlowEnabled(f, step) && step != SecondReceive && FlowApply(f, step).second == SFatal
    ensures f.second == SFatal
  {
  }

  lemma ProcIsLater(f: Flow, step: FlowStep)
    requires FlowInv(f) && FlowEnabled(f, step)
    ensures Later(f.proc, FlowApply(f, step).proc)
  {
    var p := ProcStep(f, step);
    if p.Some? {
      StepIsLater(f.proc, p.value);
    } else {
      SameGensIsLater(f.proc, FlowApply(f, step).proc);
    }
  }

  lemma FatalStays(f: Flow, t: Flow)
    requires FatalOnlyAfterExit(f) && f.second == SFatal && Later(f.proc, t.proc) && FlowInv(t) && t.second == SFatal
    ensures FatalOnlyAfterExit(t)
  {
    assert GenLater(f.proc.gens[1], t.proc.gens[1]);
  }

  lemma ProcKeepsOwnInv(f: Flow, step: FlowStep)
    requires FlowInv(f) && OwnInv(f.proc) && FlowEnabled(f, step) && FlowTimely(f, step)
    ensures OwnInv(FlowApply(f, step).proc)
  {
    var p := ProcStep(f, step);
    if p.Some? {
      StepKeepsOwnInv(f.proc, p.value);
    } else {
      SameGensKeepOwnInv(f.proc, FlowApply(f, step).proc);
    }
  }

  lemma StepKeepsSecondSafe(f: Flow, step: FlowStep)
    requires SecondIsSafe(f) && FlowEnabled(f, step) && FlowTimely(f, step)
    ensures SecondIsSafe(FlowApply(f, step))
  {
    FlowStepKeepsInv(f, step);
    ProcKeepsOwnInv(f, step);
    if step == SecondReceive {
      SecondReceiveIsSafe(f);
    } else if FlowApply(f, step).second == SFatal {
      FatalComesFromReceive(f, step);
      ProcIsLater(f, step);
      FatalStays(f, FlowApply(f, step));
    }
  }

  lemma {:induction false} TimelyFlowsKeepSecondSafe(f: Flow, steps: seq<FlowStep>)
    requires SecondIsSafe(f) && FlowRun(f, steps).Some? && TimelyFlow(f, steps)
    ensures SecondIsSafe(FlowRun(f, steps).value)
    decreases |steps|
  {
    if steps != [] {
      var front := steps[..|steps| - 1];
      TimelyFlowsKeepSecondSafe(f, front);
      StepKeepsSecondSafe(FlowRun(f, front).value, steps[|steps| - 1]);
    }
  }

  /** In every timely run, envbox ends with "restarted dockerd exited" only if it has. */
  lemma SecondFatalOnlyAfterExit(steps: seq<FlowStep>)
    requires FlowRun(BEGIN, steps).Some? && TimelyFlow(BEGIN, steps)
    ensures FatalOnlyAfterExit(FlowRun(BEGIN, steps).value)
  {
    FlowInvAtTheBeginning();
    TimelyFlowsKeepSecondSafe(BEGIN, steps);
  }

  // ----- The assumption is needed

  predicate NoFlowExit(steps: seq<FlowStep>) {
    forall i :: 0 <= i < |steps| ==> steps[i] != Background(Holder(PollExited))
  }

  lemma {:induction false} NoFlowExitIsTimely(f: Flow, steps: seq<FlowStep>)
    requires NoFlowExit(steps)
    ensures TimelyFlow(f, steps)
    decreases |steps|
  {
    if steps != [] {
      NoFlowExitIsTimely(f, steps[..|steps| - 1]);
    }
  }

  /** The steps of the background process, as steps of the flow. */
  function Lifted(steps: seq<Step>): (r: seq<FlowStep>)
    ensures |r| == |steps| && forall i :: 0 <= i < |steps| ==> r[i] == Background(steps[i])
  {
    seq(|steps|, i requires 0 <= i < |steps| => Background(steps[i]))
  }

  lemma QuietStepMovesNobody(f: Flow, step: Step)
    requires Quiet(step) && Enabled(f.proc, step)
    ensures FlowEnabled(f, Background(step))
    ensures FlowApply(f, Background(step)) == f.(proc := Apply(f.proc, step))
  {
  }

  lemma {:induction false} LiftQuiet(f: Flow, steps: seq<Step>, t: State)
    requires AllQuiet(steps) && Run(f.proc, steps) == Some(t)
    ensures FlowRun(f, Lifted(steps)) == Some(f.(proc := t)) && NoFlowExit(Lifted(steps))
    decreases |steps|
  {
    if steps != [] {
      var front, last := steps[..|steps| - 1], steps[|steps| - 1];
      var before := Run(f.proc, front).value;
      LiftQuiet(f, front, before);
      assert Lifted(steps)[..|steps| - 1] == Lifted(front);
      QuietStepMovesNobody(f.(proc := before), last);
    }
  }

  /** The main flow has just got past kill. */
  predicate JustExited(f: Flow) {
    && |f.proc.gens| == 2 && f.proc.gens[1] == FRESH && !f.proc.panicked
    && f.proc.lock == Held(MAIN, Updating(0)) && f.main == MRestarting && f.second == SNotSpawned
  }

  /** The rest of the Restart, and its goroutine asking for the channel. */
  lemma RestartAndFetch(f: Flow) returns (steps: seq<FlowStep>, t: Flow)
    requires JustExited(f)
    ensures FlowRun(f, steps) == Some(t) && NoFlowExit(steps)
    ensures t.second == SReceive(1) && t.watcher == f.watcher && IsRestarted(f.proc, t.proc)
  {
    var quiet, proc := FinishRestart(f.proc);
    LiftQuiet(f, quiet, proc);
    steps, t := Lifted(quiet), f.(proc := proc);
    SpawnThenFetch(t);
    steps, t := FlowExtend(f, steps, t, Background(Holder(SpawnWaiter)));
    steps, t := FlowExtend(f, steps, t, SecondFetch);
  }

  lemma SpawnThenFetch(f: Flow)
    requires f.main == MRestarting && f.proc.lock == Held(MAIN, Forking)
    requires !f.proc.panicked && HolderApply(f.proc, SpawnWaiter).waitCh == 1
    ensures FlowEnabled(f, Background(Holder(SpawnWaiter)))
    ensures var t := FlowApply(f, Background(Holder(SpawnWaiter)));
      && t.proc == HolderApply(f.proc, SpawnWaiter) && FlowEnabled(t, SecondFetch)
      && FlowApply(t, SecondFetch) == t.(second := SReceive(1))
  {
  }

  /** The goroutine receives what the old waiter sends. */
  lemma DeliverAndReceive(f: Flow) returns (steps: seq<FlowStep>, t: Flow)
    requires |f.proc.gens| == 2 && !f.proc.panicked && f.second == SReceive(1) && f.proc.waitCh == 1
    requires f.proc.gens[1] == Respawned(1) && KillStory(0, f.proc.gens[0]) && f.proc.gens[0].signalled
    requires f.proc.gens[0].stage != NotSpawned && !f.proc.gens[0].stage.AtLeast(ChannelRead)
    ensures FlowRun(f, steps) == Some(t) && NoFlowExit(steps)
    ensures FatalOverLiveReplacement(t)
  {
    var quiet, proc := WaiterCanDeliver(f.proc, 0, 1);
    LiftQuiet(f, quiet, proc);
    steps, t := FlowExtend(f, Lifted(quiet), f.(proc := proc), SecondReceive);
  }

  /** envbox ends because of a dockerd that runs and was never killed. */
  predicate FatalOverLiveReplacement(f: Flow) {
    && f.second == SFatal && |f.proc.gens| == 2
    && f.proc.gens[1].started && !f.proc.gens[1].reaped && !f.proc.gens[1].killRun
  }

  /** After an early answer to the main flow's Restart there is always a way to that. */
  lemma EarlyAnswerIsFatal(f: Flow) returns (steps: seq<FlowStep>, t: Flow)
    requires FlowInv(f) && AtPoint(f.proc, Polling) && !f.proc.panicked
    requires !Gen(f.proc, f.proc.cmd).stage.AtLeast(ChannelRead)
    ensures FlowRun(FlowApply(f, Background(Holder(PollExited))), steps) == Some(t) && NoFlowExit(steps)
    ensures FatalOverLiveReplacement(t)
  {
    var f0 := FlowApply(f, Background(Holder(PollExited)));
    AtExit(f);
    var a, f1 := RestartAndFetch(f0);
    assert f1.proc.gens[0] == f0.proc.gens[0] && f1.proc.gens[1] == Respawned(1);
    var b, f2 := DeliverAndReceive(f1);
    FlowRunConcat(f0, a, b);
    return a + b, f2;
  }

  /** Only the main flow polls, and only for the first dockerd. */
  lemma AtExit(f: Flow)
    requires FlowInv(f) && AtPoint(f.proc, Polling) && !f.proc.panicked
    ensures var f0 := FlowApply(f, Background(Holder(PollExited)));
      && JustExited(f0) && f.proc.cmd == 0 && f0.proc.gens[0] == f.proc.gens[0]
    ensures KillStory(0, f.proc.gens[0]) && f.proc.gens[0].signalled && f.proc.gens[0].stage != NotSpawned
  {
    assert f.proc.gens + [FRESH] == [f.proc.gens[0], FRESH];
  }

  /** At the moment isProcExited answers "exited", the goroutine is safe in every
      continuation if and only if this answer is timely. */
  lemma SecondIsSafeIffTimely(f: Flow)
    requires FlowInv(f) && OwnInv(f.proc) && AtPoint(f.proc, Polling)
    ensures Timely(f.proc, Holder(PollExited)) <==>
      forall steps ::
        var f0 := FlowApply(f, Background(Holder(PollExited)));
        FlowRun(f0, steps).Some? && TimelyFlow(f0, steps) ==> FatalOnlyAfterExit(FlowRun(f0, steps).value)
  {
    var f0 := FlowApply(f, Background(Holder(PollExited)));
    AtExit(f);
    if Timely(f.proc, Holder(PollExited)) {
      FlowStepKeepsInv(f, Background(Holder(PollExited)));
      ProcKeepsOwnInv(f, Background(Holder(PollExited)));
      forall steps | FlowRun(f0, steps).Some? && TimelyFlow(f0, steps)
        ensures FatalOnlyAfterExit(FlowRun(f0, steps).value)
      {
        TimelyFlowsKeepSecondSafe(f0, steps);
      }
    } else {
      var steps, t := EarlyAnswerIsFatal(f);
      NoFlowExitIsTimely(f0, steps);
      assert !FatalOnlyAfterExit(t);
    }
  }
}
