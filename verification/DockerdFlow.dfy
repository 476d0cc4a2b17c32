/** cli/docker.go, lines 257-313 and 346-377: the main flow, which starts dockerd
    and restarts it once when there is no space left, and the watcher goroutine,
    which waits for dockerd to exit and may restart it for the same reason. Both
    use one background process; the steps of all are interleaved. */
module DockerdFlow {
  import opened GoText
  import opened Process

  const MAIN: nat := 0
  const WATCHER: nat := 1

  datatype Reason =
    | NoArgs           // line 291
    | RestartFailed    // line 299
    | Exited           // line 311

  datatype WatcherPc =
    | WNotSpawned
    | WFetch                              // line 280: calling dockerd.Wait()
    | WReceive(ch: nat)                   // line 280: receiving from that channel
    | WRestart(ch: nat)                   // line 287: the error was "no space"
    | WRestarting(ch: nat)                // line 295
    | WFetchAgain                         // line 302
    | WReceiveAgain(ch: nat)
    | WCheck(ch: nat, outcome: Outcome)   // line 308
    | WFatal(ch: nat, reason: Reason)
    | WDone(ch: nat)                      // the goroutine returns

  datatype MainPc =
    | MStart
    | MStarting       // line 262
    | MRunning
    | MRestarting     // line 364
    | MRestarted
    | MReturned

  /** The goroutine of lines 368-373, spawned after a successful restart. */
  datatype SecondPc = SNotSpawned | SFetch | SReceive(ch: nat) | SFatal

  datatype Flow = Flow(
    proc: State,
    main: MainPc,
    watcher: WatcherPc,
    second: SecondPc,
    killed: set<nat>)   // generations on which the main flow's Restart got past kill

  const BEGIN := Flow(INITIAL, MStart, WNotSpawned, SNotSpawned, {})

  datatype FlowStep =
    | MainStart
    | MainRestart           // runDockerCVM failed with "no space"
    | MainReturn
    | WatcherFetch
    | WatcherReceive
    | WatcherNoArgs
    | WatcherRestart
    | WatcherCheck
    | SecondFetch
    | SecondReceive
    | Background(step: Step)  // the holder of the mutex, or a waiter, goes on

  /** The step of the background process behind a step of the flow. */
  function ProcStep(f: Flow, step: FlowStep): Option<Step> {
    match step
    case MainStart => Some(LockStart(MAIN))
    case MainRestart => Some(LockRestart(MAIN))
    case WatcherRestart => Some(LockRestart(WATCHER))
    case WatcherReceive =>
      if f.watcher.WReceive? || f.watcher.WReceiveAgain? then Some(Receive(f.watcher.ch)) else None
    case SecondReceive => if f.second.SReceive? then Some(Receive(f.second.ch)) else None
    case Background(s) => Some(s)
    case _ => None
  }

  predicate FlowEnabled(f: Flow, step: FlowStep) {
    && (ProcStep(f, step).Some? ==> Enabled(f.proc, ProcStep(f, step).value))
    && match step
       case MainStart => f.main == MStart
       case MainRestart => f.main == MRunning
       case MainReturn => f.main == MRunning || f.main == MRestarted
       case WatcherFetch => (f.watcher == WFetch || f.watcher == WFetchAgain) && f.proc.lock.Free?
       case WatcherReceive => f.watcher.WReceive? || f.watcher.WReceiveAgain?
       case WatcherNoArgs => f.watcher.WRestart?
       case WatcherRestart => f.watcher.WRestart?
       case WatcherCheck => f.watcher.WCheck?
       case SecondFetch => f.second == SFetch && f.proc.lock.Free?
       case SecondReceive => f.second.SReceive?
       case Background(s) => s.Holder? || s.Waiter?
  }

  predicate ReturnsError(h: HolderStep) {
    h == NotStarted || h == SignalFails || h == PollFails || h == CmdFails
  }

  /** What the return of Start or Restart does to the goroutine that called it. */
  function Returned(f: Flow, owner: nat, ok: bool): Flow {
    if owner == WATCHER then
      if f.watcher.WRestarting? then
        f.(watcher := if ok then WFetchAgain else WFatal(f.watcher.ch, RestartFailed))
      else f
    else if !ok then f.(main := MReturned)
    else if f.main == MStarting then f.(main := MRunning, watcher := WFetch)
    else f.(main := MRestarted, second := SFetch)
  }

  function Move(f: Flow, step: FlowStep): Flow {
    match step
    case MainStart => f.(main := MStarting)
    case MainRestart => f.(main := MRestarting)
    case MainReturn => f.(main := MReturned)
    case WatcherFetch =>
      var ch := f.proc.waitCh;
      f.(watcher := if f.watcher == WFetch then WReceive(ch) else WReceiveAgain(ch))
    case WatcherReceive => (match f.watcher
      case WReceive(ch) =>
        if Received(f.proc, ch) == ExitError(true) then f.(watcher := WRestart(ch))
        else f.(watcher := WCheck(ch, Received(f.proc, ch)))
      case WReceiveAgain(ch) => f.(watcher := WCheck(ch, Received(f.proc, ch)))
      case _ => f)
    case WatcherNoArgs => if f.watcher.WRestart? then f.(watcher := WFatal(f.watcher.ch, NoArgs)) else f
    case WatcherRestart => if f.watcher.WRestart? then f.(watcher := WRestarting(f.watcher.ch)) else f
    case WatcherCheck => (match f.watcher
      case WCheck(ch, outcome) => f.(watcher := if outcome.ExitError? then WFatal(ch, Exited) else WDone(ch))
      case _ => f)
    case SecondFetch => f.(second := SReceive(f.proc.waitCh))
    case SecondReceive => f.(second := SFatal)
    case Background(s) =>
      if s.Holder? && f.proc.lock.Held? then
        if s.h == SpawnWaiter then Returned(f, f.proc.lock.owner, true)
        else if ReturnsError(s.h) then Returned(f, f.proc.lock.owner, false)
        else if s.h == PollExited && f.proc.lock.owner == MAIN then f.(killed := f.killed + {f.proc.cmd})
        else f
      else f
  }

  function FlowApply(f: Flow, step: FlowStep): Flow {
    match ProcStep(f, step)
    case None => Move(f, step)
    case Some(s) => Move(f, step).(proc := Apply(f.proc, s))
  }

  function FlowRun(f: Flow, steps: seq<FlowStep>): Option<Flow>
    decreases |steps|
  {
    if steps == [] then Some(f)
    else
      var before := FlowRun(f, steps[..|steps| - 1]);
      var step := steps[|steps| - 1];
      if before.Some? && FlowEnabled(before.value, step) then Some(FlowApply(before.value, step)) else None
  }

  lemma {:induction false} FlowRunConcat(f: Flow, a: seq<FlowStep>, b: seq<FlowStep>)
    requires FlowRun(f, a).Some?
    ensures FlowRun(f, a + b) == FlowRun(FlowRun(f, a).value, b)
    decreases |b|
  {
    if b == [] {
      assert a + b == a;
    } else {
      assert (a + b)[..|a + b| - 1] == a + b[..|b| - 1];
      FlowRunConcat(f, a, b[..|b| - 1]);
    }
  }

  // ----- The invariant

  /** A generation that exited by itself: its waiter decided on something other
      than ErrUserKilled, so kill's signal was never delivered to it. */
  predicate ExitedByItself(s: State, g: nat) {
    g < |s.gens| && s.gens[g].stage.AtLeast(Decided) && s.gens[g].outcome.ExitError?
  }

  predicate WatcherInv(f: Flow) {
    match f.watcher
    case WReceive(ch) => ch < |f.proc.gens|
    case WRestart(ch) => ExitedByItself(f.proc, ch)
    case WRestarting(ch) => ExitedByItself(f.proc, ch)
    case WCheck(ch, outcome) => outcome.ExitError? ==> ExitedByItself(f.proc, ch)
    case WFatal(ch, _) => ExitedByItself(f.proc, ch)
    case WFetchAgain => false
    case WReceiveAgain(_) => false
    case _ => true
  }

  predicate MutexInv(f: Flow) {
    f.proc.lock.Held? ==>
      if f.proc.lock.owner == WATCHER then
        f.watcher.WRestarting? && (f.proc.lock.at == Killing || f.proc.lock.at == FlagStored)
      else
        && f.proc.lock.owner == MAIN
        && (f.main == MRestarting
            || (f.main == MStarting && (f.proc.lock.at == Starting || f.proc.lock.at == Forking)))
  }

  predicate BeforeReplacement(at: Point) {
    at == Killing || at == FlagStored || at == Polling
  }

  predicate MainInv(f: Flow) {
    && 1 <= |f.proc.gens| <= 2
    && (f.main == MStart || f.main == MStarting || f.main == MRunning ==> |f.proc.gens| == 1)
    && (f.main == MRestarting ==>
          && f.proc.lock.Held? && f.proc.lock.owner == MAIN
          && (BeforeReplacement(f.proc.lock.at) <==> |f.proc.gens| == 1))
  }

  /** The goroutine of lines 368-373 exists only beside a replacement, and that is
      what it waits for. */
  predicate SecondInv(f: Flow) {
    && (f.second != SNotSpawned ==> |f.proc.gens| == 2 && (f.main == MRestarted || f.main == MReturned))
    && (f.second.SReceive? ==> f.second.ch == 1)
  }

  /** Goroutines exist only for processes that were started. */
  predicate StartedInv(f: Flow) {
    && (f.main == MStart || f.main == MStarting ==> f.watcher == WNotSpawned)
    && (f.watcher != WNotSpawned ==> Gen(f.proc, 0).started)
    && (f.main == MRunning ==> f.watcher != WNotSpawned)
    && (f.second != SNotSpawned ==> Gen(f.proc, 1).started)
    && (f.main == MRestarted ==> f.second != SNotSpawned)
  }

  lemma StartedInvSurvives(f: Flow, proc: State)
    requires StartedInv(f) && Later(f.proc, proc) && |f.proc.gens| >= 1 && SecondInv(f)
    ensures StartedInv(f.(proc := proc))
  {
    assert GenLater(f.proc.gens[0], proc.gens[0]);
    if f.second != SNotSpawned {
      assert GenLater(f.proc.gens[1], proc.gens[1]);
    }
  }

  ghost predicate KilledInv(f: Flow) {
    forall g :: g in f.killed ==> g < |f.proc.gens| - 1
  }

  /** What is true of the goroutines of the flow. */
  ghost predicate ThreadsInv(f: Flow) {
    WatcherInv(f) && MutexInv(f) && MainInv(f) && SecondInv(f) && StartedInv(f) && KilledInv(f)
  }

  ghost predicate FlowInv(f: Flow) {
    KillInv(f.proc) && MessagesInv(f.proc) && ThreadsInv(f)
  }

  /** A generation that exited by itself is the newest, reaped, and unsignalled:
      only signalled generations are ever replaced. */
  lemma ExitedIsNewest(s: State, g: nat)
    requires KillInv(s) && ExitedByItself(s, g)
    ensures g == |s.gens| - 1 && s.gens[g].reaped && !s.gens[g].signalled
  {
    assert KillStory(g, s.gens[g]);
  }

  lemma StaysExited(s: State, t: State, g: nat)
    requires Later(s, t) && ExitedByItself(s, g)
    ensures ExitedByItself(t, g)
  {
    assert GenLater(s.gens[g], t.gens[g]);
  }

  /** An exit error received from a channel is the owner's own: whatever comes from
      an earlier generation is ErrUserKilled. */
  lemma ReceivedIsOwners(s: State, ch: nat)
    requires KillInv(s) && MessagesInv(s) && Received(s, ch).ExitError?
    ensures ExitedByItself(s, ch)
  {
    var m := BufferOf(s, ch)[0];
    assert AllOk(s, ch, BufferOf(s, ch));
    OkIsTruthful(s, ch, m);
    assert MessageOk(s, ch, m);
  }

  /** What the watcher relies on survives everything that comes later. */
  lemma WatcherInvSurvives(f: Flow, proc: State)
    requires WatcherInv(f) && Later(f.proc, proc)
    ensures WatcherInv(f.(proc := proc))
  {
    if f.watcher.WRestart? || f.watcher.WRestarting? || f.watcher.WFatal? || f.watcher.WCheck? {
      if ExitedByItself(f.proc, f.watcher.ch) {
        StaysExited(f.proc, proc, f.watcher.ch);
      }
    }
  }

  // ----- Steps of the holder of the mutex

  predicate ReturnsOrExits(h: HolderStep) {
    ReturnsError(h) || h == SpawnWaiter || h == PollExited
  }

  /** Where a step in the middle of Start or Restart leaves the mutex. */
  lemma InnerStep(s: State, h: HolderStep)
    requires HolderEnabled(s, h) && !ReturnsOrExits(h)
    ensures var t := HolderApply(s, h);
      && s.lock.Held? && t.lock.Held? && t.lock.owner == s.lock.owner && |t.gens| == |s.gens|
      && (BeforeReplacement(t.lock.at) <==> BeforeReplacement(s.lock.at))
      && (s.lock.at == Starting ==> t.lock.at == Forking) && s.lock.at != Forking
      && (h == StoreFlag ==> t.lock.at == FlagStored)
  {
  }

  /** Steps in the middle of Start or Restart. */
  lemma InnerStepKept(f: Flow, h: HolderStep)
    requires FlowInv(f) && Enabled(f.proc, Holder(h)) && !ReturnsOrExits(h)
    ensures ThreadsInv(f.(proc := HolderApply(f.proc, h)))
  {
    InnerStep(f.proc, h);
    InnerStepOfWatcher(f, h);
    InnerStepKeepsWatcher(f, h);
    SameGenerationsKept(f, HolderApply(f.proc, h));
  }

  lemma InnerStepKeepsWatcher(f: Flow, h: HolderStep)
    requires FlowInv(f) && Enabled(f.proc, Holder(h))
    ensures WatcherInv(f.(proc := HolderApply(f.proc, h))) && StartedInv(f.(proc := HolderApply(f.proc, h)))
  {
    HolderIsLater(f.proc, h);
    WatcherInvSurvives(f, HolderApply(f.proc, h));
    StartedInvSurvives(f, HolderApply(f.proc, h));
  }

  lemma InnerStepOfWatcher(f: Flow, h: HolderStep)
    requires FlowInv(f) && Enabled(f.proc, Holder(h)) && !ReturnsOrExits(h)
    ensures f.proc.lock.Held? && (f.proc.lock.owner == WATCHER ==> h == StoreFlag)
  {
    if f.proc.lock.Held? && f.proc.lock.owner == WATCHER {
      ExitedIsNewest(f.proc, f.watcher.ch);
      WatcherCannotSignal(f.proc, h);
    }
  }

  lemma SameGenerationsKept(f: Flow, proc: State)
    requires ThreadsInv(f) && f.proc.lock.Held? && WatcherInv(f.(proc := proc)) && StartedInv(f.(proc := proc))
    requires proc.lock.Held? && proc.lock.owner == f.proc.lock.owner && |proc.gens| == |f.proc.gens|
    requires BeforeReplacement(proc.lock.at) <==> BeforeReplacement(f.proc.lock.at)
    requires f.proc.lock.at == Starting ==> proc.lock.at == Forking
    requires f.proc.lock.at != Forking
    requires f.proc.lock.owner == WATCHER ==> proc.lock.at == FlagStored
    ensures ThreadsInv(f.(proc := proc))
  {
  }

  /** For a reaped process the holder can only set the flag and give up. */
  lemma WatcherCannotSignal(s: State, h: HolderStep)
    requires KillInv(s) && HolderEnabled(s, h) && !ReturnsOrExits(h)
    requires s.lock.at == Killing || s.lock.at == FlagStored
    requires s.gens[|s.gens| - 1].reaped
    ensures h == StoreFlag
  {
  }

  /** Errors of Start and Restart. */
  lemma ErrorReturnKept(f: Flow, h: HolderStep)
    requires FlowInv(f) && Enabled(f.proc, Holder(h)) && ReturnsError(h)
    ensures ThreadsInv(Returned(f, f.proc.lock.owner, false).(proc := HolderApply(f.proc, h)))
  {
    var proc := HolderApply(f.proc, h);
    assert proc == f.proc.(lock := Free);
    SameGensIsLater(f.proc, proc);
    WatcherInvSurvives(f, proc);
    StartedInvSurvives(f, proc);
  }

  lemma SpawnReturnKept(f: Flow)
    requires FlowInv(f) && Enabled(f.proc, Holder(SpawnWaiter))
    ensures ThreadsInv(Returned(f, f.proc.lock.owner, true).(proc := HolderApply(f.proc, SpawnWaiter)))
  {
    var proc := HolderApply(f.proc, SpawnWaiter);
    assert f.proc.gens[|f.proc.gens| - 1].started && proc.gens[|f.proc.gens| - 1].started;
    SpawnIsLater(f.proc);
    WatcherInvSurvives(f, proc);
    StartedInvSurvives(f, proc);
    assert proc.lock == Free && |proc.gens| == |f.proc.gens|;
  }

  /** kill returns nil to the main flow: only that flow can be polling. */
  lemma ExitedKept(f: Flow)
    requires FlowInv(f) && Enabled(f.proc, Holder(PollExited))
    ensures f.proc.lock.owner == MAIN
    ensures ThreadsInv(f.(killed := f.killed + {f.proc.cmd}, proc := HolderApply(f.proc, PollExited)))
  {
    var proc := HolderApply(f.proc, PollExited);
    ExitedIsLater(f.proc);
    WatcherInvSurvives(f, proc);
    StartedInvSurvives(f, proc);
    assert |proc.gens| == |f.proc.gens| + 1 && proc.lock == Held(MAIN, Updating(0));
  }

  /** The flow after a step of the holder, with the background process as it was. */
  function HolderMove(f: Flow, h: HolderStep): Flow
    requires f.proc.lock.Held?
  {
    if ReturnsError(h) then Returned(f, f.proc.lock.owner, false)
    else if h == SpawnWaiter then Returned(f, f.proc.lock.owner, true)
    else if h == PollExited && f.proc.lock.owner == MAIN then f.(killed := f.killed + {f.proc.cmd})
    else f
  }

  lemma HolderMoves(f: Flow, h: HolderStep)
    requires f.proc.lock.Held?
    ensures FlowApply(f, Background(Holder(h))) == HolderMove(f, h).(proc := HolderApply(f.proc, h))
  {
  }

  lemma HolderIsHeld(s: State, h: HolderStep)
    requires HolderEnabled(s, h)
    ensures s.lock.Held?
  {
  }

  lemma HolderStepKept(f: Flow, h: HolderStep)
    requires FlowInv(f) && Enabled(f.proc, Holder(h)) && f.proc.lock.Held?
    ensures ThreadsInv(HolderMove(f, h).(proc := HolderApply(f.proc, h)))
  {
    if ReturnsError(h) {
      ErrorReturnKept(f, h);
    } else if h == SpawnWaiter {
      SpawnReturnKept(f);
    } else if h == PollExited {
      ExitedKept(f);
    } else {
      InnerStepKept(f, h);
    }
  }

  // ----- The other steps

  lemma WaiterKeepsLock(s: State, g: nat, w: WaiterStep)
    ensures WaiterApply(s, g, w).lock == s.lock
  {
  }

  lemma WaiterStepKept(f: Flow, g: nat, w: WaiterStep)
    requires FlowInv(f) && Enabled(f.proc, Waiter(g, w))
    ensures ThreadsInv(f.(proc := WaiterApply(f.proc, g, w)))
  {
    WaiterIsLater(f.proc, g, w);
    WatcherInvSurvives(f, WaiterApply(f.proc, g, w));
    StartedInvSurvives(f, WaiterApply(f.proc, g, w));
    WaiterSignalsNothing(f.proc, g, w);
    WaiterKeepsLock(f.proc, g, w);
  }

  /** Receiving from a channel changes neither the mutex nor the number of generations. */
  lemma ReceiveKeepsThreads(f: Flow, c: nat)
    requires FlowInv(f) && Enabled(f.proc, Receive(c))
    ensures ThreadsInv(f.(proc := Apply(f.proc, Receive(c))))
    ensures Later(f.proc, Apply(f.proc, Receive(c)))
  {
    StepIsLater(f.proc, Receive(c));
    WatcherInvSurvives(f, Apply(f.proc, Receive(c)));
    StartedInvSurvives(f, Apply(f.proc, Receive(c)));
  }

  lemma WatcherReceiveKept(f: Flow)
    requires FlowInv(f) && FlowEnabled(f, WatcherReceive)
    ensures ThreadsInv(FlowApply(f, WatcherReceive))
  {
    var c := f.watcher.ch;
    ReceiveKeepsThreads(f, c);
    if Received(f.proc, c).ExitError? {
      ReceivedIsOwners(f.proc, c);
      StaysExited(f.proc, Apply(f.proc, Receive(c)), c);
    }
    ReceivedMove(f, Apply(f.proc, Receive(c)));
  }

  lemma ReceivedMove(f: Flow, proc: State)
    requires f.watcher.WReceive? && ThreadsInv(f.(proc := proc))
    requires Received(f.proc, f.watcher.ch).ExitError? ==> ExitedByItself(proc, f.watcher.ch)
    ensures ThreadsInv(Move(f, WatcherReceive).(proc := proc))
  {
  }

  lemma SecondReceiveKept(f: Flow)
    requires FlowInv(f) && FlowEnabled(f, SecondReceive)
    ensures ThreadsInv(FlowApply(f, SecondReceive))
  {
    ReceiveKeepsThreads(f, f.second.ch);
  }

  lemma ThreadStepKept(f: Flow, step: FlowStep)
    requires FlowInv(f) && FlowEnabled(f, step)
    requires !step.Background? && step != WatcherReceive && step != SecondReceive
    ensures ThreadsInv(FlowApply(f, step))
  {
  }

  lemma FlowStepKeepsInv(f: Flow, step: FlowStep)
    requires FlowInv(f) && FlowEnabled(f, step)
    ensures FlowInv(FlowApply(f, step))
  {
    var p := ProcStep(f, step);
    if p.Some? {
      StepKeepsKillInv(f.proc, p.value);
      StepKeepsMessages(f.proc, p.value);
    }
    match step {
      case Background(s) =>
        if s.Waiter? {
          WaiterStepKept(f, s.g, s.w);
        } else {
          HolderIsHeld(f.proc, s.h);
          HolderMoves(f, s.h);
          HolderStepKept(f, s.h);
        }
      case WatcherReceive => WatcherReceiveKept(f);
      case SecondReceive => SecondReceiveKept(f);
      case _ => ThreadStepKept(f, step);
    }
  }

  lemma {:induction false} FlowRunsKeepInv(f: Flow, steps: seq<FlowStep>)
    requires FlowInv(f) && FlowRun(f, steps).Some?
    ensures FlowInv(FlowRun(f, steps).value)
    decreases |steps|
  {
    if steps != [] {
      var front := steps[..|steps| - 1];
      FlowRunsKeepInv(f, front);
      FlowStepKeepsInv(FlowRun(f, front).value, steps[|steps| - 1]);
    }
  }

  lemma FlowInvAtTheBeginning()
    ensures FlowInv(BEGIN)
  {
    KillInvInitially();
  }

  // ----- What follows in every run, whatever isProcExited answers

  /** The comment at line 305: when the main flow's Restart has got past kill, the
      watcher is not fatal for the generation it killed. */
  lemma WatcherSparesKilledGenerations(steps: seq<FlowStep>)
    requires FlowRun(BEGIN, steps).Some?
    ensures var f := FlowRun(BEGIN, steps).value;
      f.watcher.WFatal? ==> f.watcher.ch !in f.killed
  {
    FlowInvAtTheBeginning();
    FlowRunsKeepInv(BEGIN, steps);
    var f := FlowRun(BEGIN, steps).value;
    if f.watcher.WFatal? {
      ExitedIsNewest(f.proc, f.watcher.ch);
    }
  }

  /** The watcher's own restart for lack of space never succeeds: an exit error is
      received only after the process was reaped, and then its signal cannot be
      delivered, so Restart returns the error of kill. */
  lemma WatcherRestartNeverSucceeds(steps: seq<FlowStep>)
    requires FlowRun(BEGIN, steps).Some?
    ensures var f := FlowRun(BEGIN, steps).value;
      && f.watcher != WFetchAgain && !f.watcher.WReceiveAgain?
      && (f.watcher.WRestarting? ==> f.proc.cmd == f.watcher.ch && Gen(f.proc, f.proc.cmd).reaped)
  {
    FlowInvAtTheBeginning();
    FlowRunsKeepInv(BEGIN, steps);
    var f := FlowRun(BEGIN, steps).value;
    if f.watcher.WRestarting? {
      WatcherRestartsNewest(f);
    }
  }

  lemma WatcherRestartsNewest(f: Flow)
    requires FlowInv(f) && f.watcher.WRestarting?
    ensures f.proc.cmd == f.watcher.ch && Gen(f.proc, f.proc.cmd).reaped
  {
    ExitedIsNewest(f.proc, f.watcher.ch);
  }

  /** So dockerd is replaced at most once, by the main flow. */
  lemma AtMostOneReplacement(steps: seq<FlowStep>)
    requires FlowRun(BEGIN, steps).Some?
    ensures |FlowRun(BEGIN, steps).value.proc.gens| <= 2
    ensures FlowRun(BEGIN, steps).value.killed <= {0}
  {
    FlowInvAtTheBeginning();
    FlowRunsKeepInv(BEGIN, steps);
  }

  // ----- Concrete runs

  lemma FlowExtend(f: Flow, steps: seq<FlowStep>, t: Flow, step: FlowStep)
    returns (steps': seq<FlowStep>, t': Flow)
    requires FlowRun(f, steps) == Some(t) && FlowEnabled(t, step)
    ensures steps' == steps + [step] && t' == FlowApply(t, step)
    ensures FlowRun(f, steps') == Some(t')
  {
    steps', t' := steps + [step], FlowApply(t, step);
    assert steps'[..|steps|] == steps;
  }
}
