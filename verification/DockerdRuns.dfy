/** Concrete runs of the dockerd flow: what goes wrong when isProcExited answers
    early, and how the watcher's own restart ends. */
module DockerdRuns {
  import opened GoText
  import opened Process
  import opened Ownership
  import opened DockerdFlow
  import opened SecondWatcher

  // ----- envbox ends over a live replacement

  /** One generation, and all fields point to it. */
  function Single(gen: Generation, lock: Lock): State {
    State([gen], 0, 0, 0, 0, 0, 0, lock, false)
  }

  lemma StartOnce() returns (t: State)
    ensures Run(Single(FRESH, Held(MAIN, Starting)), [Holder(CmdStarts)]) == Some(t)
    ensures t == Single(FRESH.(started := true), Held(MAIN, Forking))
  {
    var s := Single(FRESH, Held(MAIN, Starting));
    var steps;
    steps, t := Extend(s, [], s, Holder(CmdStarts));
    assert t.gens == [FRESH.(started := true)];
  }

  lemma SpawnOnce(s: State)
    requires s == Single(FRESH.(started := true), Held(MAIN, Forking))
    ensures Enabled(s, Holder(SpawnWaiter)) && HolderApply(s, SpawnWaiter) == Single(Respawned(0), Free)
  {
    assert HolderApply(s, SpawnWaiter).gens == [Respawned(0)];
  }

  lemma FlagOnce(gen: Generation, flagged: Generation)
    requires gen.started && flagged == gen.(killFlag := true, killRun := true)
    ensures var s := Single(gen, Held(MAIN, Killing));
      Enabled(s, Holder(StoreFlag)) && HolderApply(s, StoreFlag) == Single(flagged, Held(MAIN, FlagStored))
  {
    assert HolderApply(Single(gen, Held(MAIN, Killing)), StoreFlag).gens == [flagged];
  }

  lemma DeliverOnce(gen: Generation, signalled: Generation)
    requires !gen.reaped && signalled == gen.(signalled := true)
    ensures var s := Single(gen, Held(MAIN, FlagStored));
      && Enabled(s, Holder(SignalDelivered))
      && HolderApply(s, SignalDelivered) == Single(signalled, Held(MAIN, Polling))
  {
    assert HolderApply(Single(gen, Held(MAIN, FlagStored)), SignalDelivered).gens == [signalled];
  }

  /** kill signals a process whose waiter has not begun. */
  lemma SignalOnce() returns (steps: seq<Step>, t: State)
    ensures Run(Single(Respawned(0), Held(MAIN, Killing)), steps) == Some(t) && AllQuiet(steps)
    ensures PollsEarly(t)
  {
    var s := Single(Respawned(0), Held(MAIN, Killing));
    var flagged := Respawned(0).(killFlag := true, killRun := true);
    FlagOnce(Respawned(0), flagged);
    DeliverOnce(flagged, flagged.(signalled := true));
    steps, t := Extend(s, [], s, Holder(StoreFlag));
    steps, t := Extend(s, steps, t, Holder(SignalDelivered));
  }

  predicate PollsEarly(s: State) {
    && AtPoint(s, Polling) && !s.panicked
    && !Gen(s, s.cmd).stage.AtLeast(ChannelRead)
  }

  /** dockerd is started ... */
  lemma Startup() returns (steps: seq<FlowStep>, t: Flow)
    ensures FlowRun(BEGIN, steps) == Some(t)
    ensures t.proc == Single(Respawned(0), Free)
    ensures t.main == MRunning && t.watcher == WFetch && t.second == SNotSpawned
  {
    steps, t := FlowExtend(BEGIN, [], BEGIN, MainStart);
    var proc := StartOnce();
    LiftQuiet(t, [Holder(CmdStarts)], proc);
    FlowRunConcat(BEGIN, steps, Lifted([Holder(CmdStarts)]));
    steps, t := steps + Lifted([Holder(CmdStarts)]), t.(proc := proc);
    SpawnOnce(proc);
    HolderMoves(t, SpawnWaiter);
    steps, t := FlowExtend(BEGIN, steps, t, Background(Holder(SpawnWaiter)));
  }

  /** ... and the main flow restarts it while its waiter is slow. */
  lemma RestartWhileWaiterIsSlow(f: Flow) returns (steps: seq<FlowStep>, t: Flow)
    requires f.proc == Single(Respawned(0), Free) && f.main == MRunning
    ensures FlowRun(f, steps) == Some(t) && PollsEarly(t.proc) && t.watcher == f.watcher
  {
    steps, t := FlowExtend(f, [], f, MainRestart);
    var quiet, proc := SignalOnce();
    LiftQuiet(t, quiet, proc);
    FlowRunConcat(f, steps, Lifted(quiet));
    steps, t := steps + Lifted(quiet), t.(proc := proc);
  }

  lemma FlowInvHolds(steps: seq<FlowStep>, t: Flow)
    requires FlowRun(BEGIN, steps) == Some(t)
    ensures FlowInv(t)
  {
    FlowInvAtTheBeginning();
    FlowRunsKeepInv(BEGIN, steps);
  }

  lemma PolledEarly() returns (steps: seq<FlowStep>, t: Flow)
    ensures FlowRun(BEGIN, steps) == Some(t) && PollsEarly(t.proc) && FlowInv(t) && t.watcher == WFetch
  {
    var a, f := Startup();
    var b;
    b, t := RestartWhileWaiterIsSlow(f);
    FlowRunConcat(BEGIN, a, b);
    steps := a + b;
    FlowInvHolds(steps, t);
  }

  /** A whole run, from the beginning, that ends envbox over a live replacement. */
  lemma LiveReplacementCanBeFatal() returns (steps: seq<FlowStep>, t: Flow)
    ensures FlowRun(BEGIN, steps) == Some(t) && FatalOverLiveReplacement(t)
  {
    var a, f := PolledEarly();
    var b, g := FlowExtend(BEGIN, a, f, Background(Holder(PollExited)));
    var c;
    c, t := EarlyAnswerIsFatal(f);
    FlowRunConcat(BEGIN, b, c);
    steps := b + c;
  }

  /** A watcher that is slow to ask for the channel waits for the replacement. */
  lemma LateWatcherWaitsForReplacement() returns (steps: seq<FlowStep>, t: Flow)
    ensures FlowRun(BEGIN, steps) == Some(t) && t.watcher == WReceive(1)
  {
    var a, f := PolledEarly();
    AtExit(f);
    var b, g := FlowExtend(BEGIN, a, f, Background(Holder(PollExited)));
    var c, h := RestartAndFetch(g);
    FlowRunConcat(BEGIN, b, c);
    steps, t := FlowExtend(BEGIN, b + c, h, WatcherFetch);
  }

  // ----- What the watcher makes of the end of dockerd

  /** One more step of the only waiter. */
  lemma OneMove(s: State, steps: seq<Step>, gen: Generation, w: WaiterStep, next: Generation)
    returns (steps': seq<Step>)
    requires AllQuiet(steps) && Run(s, steps) == Some(Single(gen, Free))
    requires IsLocal(w) && WaiterEnabled(Single(gen, Free), 0, w) && next == LocalMove(Single(gen, Free), 0, w)
    ensures AllQuiet(steps') && Run(s, steps') == Some(Single(next, Free))
  {
    var t;
    steps', t := Extend(s, steps, Single(gen, Free), Waiter(0, w));
    assert t.gens == [next];
  }

  /** A generation whose waiter has got this from cmd.Wait. */
  function Waiting(exit: Outcome): Generation {
    Respawned(0).(stage := Waited, reaped := true, exit := exit)
  }

  lemma GetsWaitedFor(exit: Outcome) returns (steps: seq<Step>)
    requires exit != UserKilled
    ensures Run(Single(Respawned(0), Free), steps) == Some(Single(Waiting(exit), Free)) && AllQuiet(steps)
  {
    var s := Single(Respawned(0), Free);
    var a := Respawned(0).(stage := CancelRead);
    var b := a.(stage := InWait);
    steps := OneMove(s, [], Respawned(0), ReadCancel, a);
    steps := OneMove(s, steps, a, ReadClose, b);
    steps := OneMove(s, steps, b, Reap, b.(reaped := true));
    steps := OneMove(s, steps, b.(reaped := true), WaitReturns(exit), Waiting(exit));
  }

  lemma SendsResult(exit: Outcome) returns (steps: seq<Step>, t: State)
    requires exit != UserKilled
    ensures Run(Single(Waiting(exit), Free), steps) == Some(t) && AllQuiet(steps)
    ensures OnlyOneStarted(t) && BufferOf(t, 0) == [Message(0, exit)]
  {
    var s := Single(Waiting(exit), Free);
    var decided := Waiting(exit).(stage := Decided, outcome := exit);
    var ready := decided.(stage := ChannelRead);
    steps := OneMove(s, [], Waiting(exit), LoadFlag, decided);
    steps := OneMove(s, steps, decided, ReadSend, ready);
    t := Single(ready, Free);
    SendToOwn(t, ready);
    steps, t := Extend(s, steps, t, Waiter(0, Send));
  }

  /** The first dockerd ends, with this result, while nobody holds the mutex. */
  lemma ExitByItself(exit: Outcome) returns (steps: seq<Step>, t: State)
    requires exit != UserKilled
    ensures Run(Single(Respawned(0), Free), steps) == Some(t) && AllQuiet(steps)
    ensures OnlyOneStarted(t) && BufferOf(t, 0) == [Message(0, exit)]
  {
    var waited := GetsWaitedFor(exit);
    var rest;
    rest, t := SendsResult(exit);
    RunConcat(Single(Respawned(0), Free), waited, rest);
    steps := waited + rest;
  }

  lemma SendToOwn(s: State, gen: Generation)
    requires s == Single(gen, Free) && gen.stage == ChannelRead && gen.sendOf == 0 && gen.channel == FRESH.channel
    ensures Enabled(s, Waiter(0, Send))
    ensures var t := Apply(s, Waiter(0, Send)); var m := Message(0, gen.outcome);
      t == Single(gen.(stage := Sent, channel := Channel([m], false, [m])), Free)
  {
    var m := Message(0, gen.outcome);
    assert [] + [m] == [m];
    assert ApplySend(s, 0).gens == [gen.(stage := Sent, channel := Channel([m], false, [m]))];
  }

  /** The watcher fetches the channel, and dockerd ends. */
  lemma ExitWhileWatched(exit: Outcome) returns (steps: seq<FlowStep>, t: Flow)
    requires exit != UserKilled
    ensures FlowRun(BEGIN, steps) == Some(t) && t.watcher == WReceive(0)
    ensures OnlyOneStarted(t.proc) && BufferOf(t.proc, 0) == [Message(0, exit)]
  {
    steps, t := Startup();
    steps, t := FlowExtend(BEGIN, steps, t, WatcherFetch);
    var quiet, proc := ExitByItself(exit);
    LiftQuiet(t, quiet, proc);
    FlowRunConcat(BEGIN, steps, Lifted(quiet));
    steps, t := steps + Lifted(quiet), t.(proc := proc);
  }

  /** The watcher restarts a dockerd that ended for lack of space. */
  lemma WatcherGetsToRestart() returns (steps: seq<FlowStep>, t: Flow)
    ensures FlowRun(BEGIN, steps) == Some(t) && t.watcher == WRestarting(0)
    ensures t.proc.lock == Held(WATCHER, Killing) && OnlyOneStarted(t.proc.(lock := Free))
  {
    steps, t := ExitWhileWatched(ExitError(true));
    var more, u := ReceiveAndRestart(t);
    FlowRunConcat(BEGIN, steps, more);
    return steps + more, u;
  }

  /** It ends envbox over any other failure, with "dockerd exited", and is content with
      a dockerd that ends well. */
  lemma WatcherJudges(exit: Outcome) returns (steps: seq<FlowStep>, t: Flow)
    requires exit == ExitError(false) || exit == Clean
    ensures FlowRun(BEGIN, steps) == Some(t)
    ensures t.watcher == if exit == Clean then WDone(0) else WFatal(0, Exited)
  {
    steps, t := ExitWhileWatched(exit);
    ReceiveOther(t, exit);
    steps, t := FlowExtend(BEGIN, steps, t, WatcherReceive);
    steps, t := FlowExtend(BEGIN, steps, t, WatcherCheck);
  }

  lemma ReceiveOther(f: Flow, exit: Outcome)
    requires f.watcher == WReceive(0) && OnlyOneStarted(f.proc) && exit != ExitError(true)
    requires BufferOf(f.proc, 0) == [Message(0, exit)]
    ensures FlowEnabled(f, WatcherReceive)
    ensures var t := FlowApply(f, WatcherReceive); t.watcher == WCheck(0, exit) && !t.proc.panicked
  {
    assert Received(f.proc, 0) == exit;
  }

  /** The only dockerd has been started, and nobody holds the mutex. */
  predicate OnlyOneStarted(s: State) {
    && s.lock == Free && !s.panicked && s.cmd == 0 && s.userKilled == 0
    && |s.gens| == 1 && s.gens[0].started
  }

  lemma ReceiveNoSpace(f: Flow)
    requires f.watcher == WReceive(0) && OnlyOneStarted(f.proc)
    requires BufferOf(f.proc, 0) == [Message(0, ExitError(true))]
    ensures FlowEnabled(f, WatcherReceive)
    ensures var t := FlowApply(f, WatcherReceive); t.watcher == WRestart(0) && OnlyOneStarted(t.proc)
  {
    assert Received(f.proc, 0) == ExitError(true);
  }

  lemma RestartAgain(f: Flow)
    requires f.watcher == WRestart(0) && OnlyOneStarted(f.proc)
    ensures FlowEnabled(f, WatcherRestart)
    ensures FlowApply(f, WatcherRestart) ==
      f.(watcher := WRestarting(0), proc := f.proc.(lock := Held(WATCHER, Killing)))
  {
  }

  lemma ReceiveAndRestart(f: Flow) returns (steps: seq<FlowStep>, t: Flow)
    requires f.watcher == WReceive(0) && OnlyOneStarted(f.proc)
    requires BufferOf(f.proc, 0) == [Message(0, ExitError(true))]
    ensures FlowRun(f, steps) == Some(t) && t.watcher == WRestarting(0)
    ensures t.proc.lock == Held(WATCHER, Killing) && OnlyOneStarted(t.proc.(lock := Free))
  {
    ReceiveNoSpace(f);
    steps, t := FlowExtend(f, [], f, WatcherReceive);
    RestartAgain(t);
    steps, t := FlowExtend(f, steps, t, WatcherRestart);
  }

  /** And there its Restart fails: envbox ends with "restart dockerd". */
  lemma WatcherRestartFails() returns (before: seq<FlowStep>, f: Flow, steps: seq<FlowStep>, t: Flow)
    ensures FlowRun(BEGIN, before) == Some(f) && f.watcher == WRestarting(0)
    ensures before <= steps && FlowRun(BEGIN, steps) == Some(t) && t.watcher == WFatal(0, RestartFailed)
  {
    before, f := WatcherGetsToRestart();
    FlagIsQuiet(f);
    steps, t := FlowExtend(BEGIN, before, f, Background(Holder(StoreFlag)));
    HolderMoves(t, SignalFails);
    steps, t := FlowExtend(BEGIN, steps, t, Background(Holder(SignalFails)));
  }

  lemma FlagIsQuiet(f: Flow)
    requires f.watcher == WRestarting(0)
    requires f.proc.lock == Held(WATCHER, Killing) && OnlyOneStarted(f.proc.(lock := Free))
    ensures FlowEnabled(f, Background(Holder(StoreFlag)))
    ensures var t := FlowApply(f, Background(Holder(StoreFlag)));
      t.watcher == WRestarting(0) && t.proc.lock == Held(WATCHER, FlagStored) && !t.proc.panicked
  {
    QuietStepMovesNobody(f, Holder(StoreFlag));
  }
}
