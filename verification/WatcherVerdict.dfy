/** cli/docker.go, lines 279-313: what the watcher makes of the end of a dockerd. It
    must not be fatal for a killed one, see DockerdFlow; here is the other half, that
    no failure goes unnoticed. */
module WatcherVerdict {
  import opened GoText
  import opened Process
  import opened Ownership
  import opened DockerdFlow
  import opened SecondWatcher

  predicate HasNotReceived(w: WatcherPc) {
    w == WNotSpawned || w == WFetch || w.WReceive?
  }

  /** Nobody has taken anything out of a channel yet. */
  ghost predicate NothingTaken(s: State) {
    forall c: nat :: BufferOf(s, c) == SentOn(s, c)
  }

  /** Only the two goroutines receive. */
  ghost predicate Untaken(f: Flow) {
    HasNotReceived(f.watcher) && f.second != SFatal ==> NothingTaken(f.proc)
  }

  /** With a single generation there has been no answer of isProcExited to rely on. */
  ghost predicate SoleIsOwned(f: Flow) {
    |f.proc.gens| == 1 ==> OwnInv(f.proc)
  }

  /** Generation g was killed, or its waiter has decided on something other than a failure. */
  predicate Settled(s: State, g: nat) {
    g < |s.gens| && (s.gens[g].signalled || (s.gens[g].stage.AtLeast(Decided) && !s.gens[g].outcome.ExitError?))
  }

  /** The watcher is done, or will be, with what it received from some channel. */
  predicate WithoutComplaint(w: WatcherPc) {
    w.WDone? || (w.WCheck? && !w.outcome.ExitError?)
  }

  ghost predicate VerdictInv(f: Flow) {
    && FlowInv(f) && Untaken(f) && SoleIsOwned(f)
    && (WithoutComplaint(f.watcher) ==> Settled(f.proc, 0))
  }

  lemma SettledStays(s: State, t: State, g: nat)
    requires Settled(s, g) && Later(s, t)
    ensures Settled(t, g)
  {
    assert GenLater(s.gens[g], t.gens[g]);
  }

  lemma SettledHasNotFailed(s: State, g: nat)
    requires KillInv(s) && Settled(s, g)
    ensures !ExitedByItself(s, g)
  {
    assert KillStory(g, s.gens[g]);
  }

  /** Whoever is first to receive from a channel that its own waiter uses, and gets no
      failure, knows that there was none. */
  lemma OwnValueSettles(s: State, c: nat)
    requires KillInv(s) && OwnInv(s) && Enabled(s, Receive(c)) && BufferOf(s, c) == SentOn(s, c)
    requires !Received(s, c).ExitError?
    ensures Settled(s, c)
  {
    assert Owned(c, s.gens[c]) && KillStory(c, s.gens[c]);
  }

  /** What the watcher receives without complaint settles the first dockerd. */
  lemma ReceivedSettles(f: Flow)
    requires VerdictInv(f) && f.watcher.WReceive? && FlowEnabled(f, WatcherReceive)
    requires !Received(f.proc, f.watcher.ch).ExitError?
    ensures Settled(f.proc, 0)
  {
    if |f.proc.gens| == 1 {
      OwnValueSettles(f.proc, f.watcher.ch);
    } else {
      assert ReplacedStory(f.proc.gens[0]);
    }
  }

  lemma SendTakesNothing(s: State, g: nat)
    requires NothingTaken(s) && WaiterEnabled(s, g, Send)
    ensures NothingTaken(ApplySend(s, g))
  {
    if Gen(s, s.gens[g].sendOf).channel.closed {
      SameGensSendNothing(s, ApplySend(s, g));
    } else {
      SendAppends(s, g);
    }
    forall c: nat ensures BufferOf(ApplySend(s, g), c) == SentOn(ApplySend(s, g), c) {
      assert BufferOf(s, c) == SentOn(s, c);
    }
  }

  lemma BackgroundTakesNothing(s: State, step: Step)
    requires NothingTaken(s) && Enabled(s, step) && !step.Receive?
    ensures NothingTaken(Apply(s, step))
  {
    match step {
      case Holder(h) => HolderSendsNothing(s, h);
      case Waiter(g, w) =>
        if w.Send? { SendTakesNothing(s, g); } else { WaiterSendsNothingElse(s, g, w); }
      case LockStart(_) => SameGensSendNothing(s, Apply(s, step));
      case LockRestart(_) => SameGensSendNothing(s, Apply(s, step));
    }
  }

  /** Goroutines do not go back to before they received. */
  lemma ReceivingIsFinal(f: Flow, step: FlowStep)
    requires ThreadsInv(f) && FlowEnabled(f, step)
    requires HasNotReceived(FlowApply(f, step).watcher) && FlowApply(f, step).second != SFatal
    ensures HasNotReceived(f.watcher) && f.second != SFatal
    ensures ProcStep(f, step).Some? ==> !ProcStep(f, step).value.Receive?
  {
  }

  lemma StepKeepsUntaken(f: Flow, step: FlowStep)
    requires FlowInv(f) && Untaken(f) && FlowEnabled(f, step)
    ensures Untaken(FlowApply(f, step))
  {
    var t := FlowApply(f, step);
    if HasNotReceived(t.watcher) && t.second != SFatal {
      ReceivingIsFinal(f, step);
      var p := ProcStep(f, step);
      if p.Some? {
        BackgroundTakesNothing(f.proc, p.value);
      }
    }
  }

  lemma ExitAddsOne(s: State)
    ensures |HolderApply(s, PollExited).gens| == |s.gens| + 1
  {
  }

  lemma SoleAnswerIsTimely(f: Flow, step: FlowStep)
    requires FlowInv(f) && FlowEnabled(f, step) && |FlowApply(f, step).proc.gens| == 1
    ensures |f.proc.gens| == 1 && FlowTimely(f, step)
  {
    ProcIsLater(f, step);
    ExitAddsOne(f.proc);
  }

  lemma StepKeepsSole(f: Flow, step: FlowStep)
    requires FlowInv(f) && SoleIsOwned(f) && FlowEnabled(f, step)
    ensures SoleIsOwned(FlowApply(f, step))
  {
    if |FlowApply(f, step).proc.gens| == 1 {
      SoleAnswerIsTimely(f, step);
      ProcKeepsOwnInv(f, step);
    }
  }

  /** Where a watcher without complaint comes from. */
  lemma ComplaintsStay(f: Flow, step: FlowStep)
    requires FlowInv(f) && FlowEnabled(f, step) && WithoutComplaint(FlowApply(f, step).watcher)
    ensures WithoutComplaint(f.watcher)
      || (step == WatcherReceive && f.watcher.WReceive? && !Received(f.proc, f.watcher.ch).ExitError?)
  {
  }

  lemma StepKeepsVerdict(f: Flow, step: FlowStep)
    requires VerdictInv(f) && FlowEnabled(f, step)
    ensures VerdictInv(FlowApply(f, step))
  {
    FlowStepKeepsInv(f, step);
    StepKeepsUntaken(f, step);
    StepKeepsSole(f, step);
    var t := FlowApply(f, step);
    if WithoutComplaint(t.watcher) {
      ComplaintsStay(f, step);
      if !WithoutComplaint(f.watcher) {
        ReceivedSettles(f);
      }
      ProcIsLater(f, step);
      SettledStays(f.proc, t.proc, 0);
    }
  }

  lemma VerdictAtTheBeginning()
    ensures VerdictInv(BEGIN) && OwnInv(BEGIN.proc)
  {
    FlowInvAtTheBeginning();
  }

  lemma {:induction false} RunsKeepVerdict(steps: seq<FlowStep>)
    requires FlowRun(BEGIN, steps).Some?
    ensures VerdictInv(FlowRun(BEGIN, steps).value)
    decreases |steps|
  {
    VerdictAtTheBeginning();
    if steps != [] {
      var front := steps[..|steps| - 1];
      RunsKeepVerdict(front);
      StepKeepsVerdict(FlowRun(BEGIN, front).value, steps[|steps| - 1]);
    }
  }

  /** In every run, whatever isProcExited answers: a first dockerd that fails without
      having been killed leaves the watcher fatal or not yet finished, never done. */
  lemma FailureIsNotMissed(steps: seq<FlowStep>)
    requires FlowRun(BEGIN, steps).Some?
    ensures var f := FlowRun(BEGIN, steps).value;
      f.watcher.WDone? ==> !ExitedByItself(f.proc, 0)
  {
    RunsKeepVerdict(steps);
    var f := FlowRun(BEGIN, steps).value;
    if f.watcher.WDone? {
      SettledHasNotFailed(f.proc, 0);
    }
  }

  // ----- The replacement

  /** Under timely answers the same holds of the dockerd that the watcher waited for,
      unless the second goroutine has been told first. */
  ghost predicate TimelyVerdict(f: Flow) {
    && VerdictInv(f) && OwnInv(f.proc)
    && (WithoutComplaint(f.watcher) ==> f.second == SFatal || Settled(f.proc, f.watcher.ch))
  }

  lemma SameChannel(f: Flow, step: FlowStep)
    requires FlowInv(f) && FlowEnabled(f, step) && WithoutComplaint(FlowApply(f, step).watcher)
    ensures WithoutComplaint(f.watcher) || f.watcher.WReceive?
    ensures FlowApply(f, step).watcher.ch == f.watcher.ch
    ensures f.second == SFatal ==> FlowApply(f, step).second == SFatal
  {
  }

  lemma StepKeepsTimelyVerdict(f: Flow, step: FlowStep)
    requires TimelyVerdict(f) && FlowEnabled(f, step) && FlowTimely(f, step)
    ensures TimelyVerdict(FlowApply(f, step))
  {
    StepKeepsVerdict(f, step);
    ProcKeepsOwnInv(f, step);
    var t := FlowApply(f, step);
    if WithoutComplaint(t.watcher) {
      SameChannel(f, step);
      ComplaintsStay(f, step);
      ProcIsLater(f, step);
      if f.second != SFatal {
        if !WithoutComplaint(f.watcher) {
          OwnValueSettles(f.proc, f.watcher.ch);
        }
        SettledStays(f.proc, t.proc, f.watcher.ch);
      }
    }
  }

  lemma {:induction false} TimelyRunsKeepVerdict(steps: seq<FlowStep>)
    requires FlowRun(BEGIN, steps).Some? && TimelyFlow(BEGIN, steps)
    ensures TimelyVerdict(FlowRun(BEGIN, steps).value)
    decreases |steps|
  {
    VerdictAtTheBeginning();
    if steps != [] {
      var front := steps[..|steps| - 1];
      TimelyRunsKeepVerdict(front);
      StepKeepsTimelyVerdict(FlowRun(BEGIN, front).value, steps[|steps| - 1]);
    }
  }

  /** In every timely run no failure goes unnoticed: when the watcher is done with a
      dockerd, first or replacement, that has not failed by itself, or the second
      goroutine ends envbox. */
  lemma NoFailureIsMissed(steps: seq<FlowStep>)
    requires FlowRun(BEGIN, steps).Some? && TimelyFlow(BEGIN, steps)
    ensures var f := FlowRun(BEGIN, steps).value;
      f.watcher.WDone? ==> !ExitedByItself(f.proc, f.watcher.ch) || f.second == SFatal
  {
    TimelyRunsKeepVerdict(steps);
    var f := FlowRun(BEGIN, steps).value;
    if f.watcher.WDone? && f.second != SFatal {
      SettledHasNotFailed(f.proc, f.watcher.ch);
    }
  }
}
