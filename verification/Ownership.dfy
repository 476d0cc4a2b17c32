/** background/process.go: who owns which channel. The waiter of a generation
    evaluates d.waitCh three times without the lock, so it uses its own channel
    only if Restart does not replace the field in between. */
module Ownership {
  import opened GoText
  import opened Process

  /** The assumption about isProcExited: it says "exited" for a generation only
      after that generation's waiter has evaluated d.waitCh for its send. (Saying so
      only after the waiter has sent, or has closed its channel, is stronger.) */
  predicate Timely(s: State, step: Step) {
    step == Holder(PollExited) ==> Gen(s, s.cmd).stage.AtLeast(ChannelRead)
  }

  predicate TimelyRun(s: State, steps: seq<Step>)
    decreases |steps|
  {
    steps == [] ||
    (var front := steps[..|steps| - 1];
     TimelyRun(s, front) && (Run(s, front).Some? ==> Timely(Run(s, front).value, steps[|steps| - 1])))
  }

  /** A channel belongs to the waiter of its own generation. */
  predicate Owned(g: nat, gen: Generation) {
    && gen.channel.sent == (if gen.stage.AtLeast(Sent) then [Message(g, gen.outcome)] else [])
    && (gen.channel.buffer == [] || gen.channel.buffer == gen.channel.sent)
    && (gen.channel.closed <==> gen.stage.AtLeast(ChannelClosed))
    && (gen.cancelled <==> gen.stage == Cancelled)
    && (gen.stage.AtLeast(CancelRead) ==> gen.cancelOf == g)
    && (gen.stage.AtLeast(InWait) ==> gen.closeOf == g)
    && (gen.stage.AtLeast(ChannelRead) ==> gen.sendOf == g)
  }

  ghost predicate OwnInv(s: State) {
    && !s.panicked
    && (forall g :: 0 <= g < |s.gens| ==> Owned(g, s.gens[g]))
    && (forall g :: 0 <= g < |s.gens| - 1 ==> s.gens[g].stage.AtLeast(ChannelRead))
  }

  lemma SetGenKeepsOwnInv(s: State, g: nat, gen: Generation)
    requires OwnInv(s) && g < |s.gens| && Owned(g, gen)
    requires gen.stage.AtLeast(s.gens[g].stage)
    ensures OwnInv(SetGen(s, g, gen))
  {
  }

  /** The generation before and after a step of the holder that concerns only the
      kill flag, or the start of its process. */
  predicate SameChannelUse(a: Generation, b: Generation) {
    && b.channel == a.channel && b.cancelled == a.cancelled && b.outcome == a.outcome
    && b.cancelOf == a.cancelOf && b.closeOf == a.closeOf && b.sendOf == a.sendOf
    && (b.stage == a.stage || (b.stage == Spawned && a.stage == NotSpawned))
  }

  lemma SameUseIsOwned(g: nat, a: Generation, b: Generation)
    requires Owned(g, a) && SameChannelUse(a, b)
    ensures Owned(g, b) && b.stage.AtLeast(a.stage)
  {
  }

  lemma NewestKeepsOwnInv(s: State, t: State, gen: Generation)
    requires OwnInv(s) && s.gens != [] && SameChannelUse(s.gens[|s.gens| - 1], gen)
    requires t.gens == s.gens[|s.gens| - 1 := gen] && t.panicked == s.panicked
    ensures OwnInv(t)
  {
    var last := |s.gens| - 1;
    SameUseIsOwned(last, s.gens[last], gen);
    forall g | 0 <= g < |t.gens| ensures Owned(g, t.gens[g]) {
      assert Owned(g, s.gens[g]);
    }
  }

  lemma StoreFlagKeepsOwnInv(s: State)
    requires KillInv(s) && OwnInv(s) && AtPoint(s, Killing)
    ensures OwnInv(HolderApply(s, StoreFlag))
  {
    NewestKeepsOwnInv(s, HolderApply(s, StoreFlag), s.gens[|s.gens| - 1].(killFlag := true, killRun := true));
  }

  lemma SignalKeepsOwnInv(s: State)
    requires KillInv(s) && OwnInv(s) && AtPoint(s, FlagStored)
    ensures OwnInv(HolderApply(s, SignalDelivered))
  {
    NewestKeepsOwnInv(s, HolderApply(s, SignalDelivered), s.gens[|s.gens| - 1].(signalled := true));
  }

  lemma StartKeepsOwnInv(s: State)
    requires KillInv(s) && OwnInv(s) && AtPoint(s, Starting)
    ensures OwnInv(HolderApply(s, CmdStarts))
  {
    var last := |s.gens| - 1;
    assert s.cmd == last;
    NewestKeepsOwnInv(s, HolderApply(s, CmdStarts), s.gens[last].(started := true, flagOf := s.userKilled));
  }

  lemma SpawnKeepsOwnInv(s: State)
    requires KillInv(s) && OwnInv(s) && AtPoint(s, Forking)
    ensures OwnInv(HolderApply(s, SpawnWaiter))
  {
    NewestKeepsOwnInv(s, HolderApply(s, SpawnWaiter), s.gens[|s.gens| - 1].(stage := Spawned));
  }

  lemma FreshIsOwned(g: nat)
    ensures Owned(g, FRESH)
  {
  }

  lemma NewGenerationKeepsOwnInv(s: State, t: State)
    requires OwnInv(s) && s.gens != [] && s.gens[|s.gens| - 1].stage.AtLeast(ChannelRead)
    requires t.gens == s.gens + [FRESH] && t.panicked == s.panicked
    ensures OwnInv(t)
  {
    FreshIsOwned(|s.gens|);
    forall g | 0 <= g < |t.gens| ensures Owned(g, t.gens[g]) {
      assert g < |s.gens| ==> t.gens[g] == s.gens[g];
    }
  }

  lemma PollExitedKeepsOwnInv(s: State)
    requires KillInv(s) && OwnInv(s) && AtPoint(s, Polling) && Timely(s, Holder(PollExited))
    ensures OwnInv(HolderApply(s, PollExited))
  {
    NewGenerationKeepsOwnInv(s, HolderApply(s, PollExited));
  }

  lemma SameGensKeepOwnInv(s: State, t: State)
    requires OwnInv(s) && t.gens == s.gens && t.panicked == s.panicked
    ensures OwnInv(t)
  {
  }

  lemma HolderDoesNotPanic(s: State, h: HolderStep)
    ensures HolderApply(s, h).panicked == s.panicked
  {
  }

  lemma HolderKeepsOwnInv(s: State, h: HolderStep)
    requires KillInv(s) && OwnInv(s) && HolderEnabled(s, h) && Timely(s, Holder(h))
    ensures OwnInv(HolderApply(s, h))
  {
    match h {
      case StoreFlag => StoreFlagKeepsOwnInv(s);
      case PollExited => PollExitedKeepsOwnInv(s);
      case SignalDelivered => SignalKeepsOwnInv(s);
      case CmdStarts => StartKeepsOwnInv(s);
      case SpawnWaiter => SpawnKeepsOwnInv(s);
      case _ =>
        QuietHolderKeepsGens(s, h);
        HolderDoesNotPanic(s, h);
        SameGensKeepOwnInv(s, HolderApply(s, h));
    }
  }

  /** A waiter that still has to evaluate d.cancel or d.waitCh is the newest one,
      and the fields are its own. */
  lemma EarlyWaiterIsNewest(s: State, g: nat)
    requires KillInv(s) && OwnInv(s) && g < |s.gens|
    requires s.gens[g].stage != NotSpawned && !s.gens[g].stage.AtLeast(ChannelRead)
    ensures g == |s.gens| - 1 && s.cancel == g && s.waitCh == g
  {
    assert KillStory(g, s.gens[g]);
  }

  lemma SendKeepsOwnInv(s: State, g: nat)
    requires OwnInv(s) && WaiterEnabled(s, g, Send)
    ensures OwnInv(ApplySend(s, g))
  {
    var gen := s.gens[g];
    assert Owned(g, gen);
    var m := Message(g, gen.outcome);
    assert [] + [m] == [m];
    var gen' := gen.(stage := Sent, channel := Channel([m], false, [m]));
    SetGenKeepsOwnInv(s, g, gen');
    assert ApplySend(s, g).gens == s.gens[g := gen'];
  }

  lemma CloseKeepsOwnInv(s: State, g: nat)
    requires OwnInv(s) && WaiterEnabled(s, g, Close)
    ensures OwnInv(ApplyClose(s, g))
  {
    var gen := s.gens[g];
    assert Owned(g, gen);
    var gen' := gen.(stage := ChannelClosed, channel := gen.channel.(closed := true));
    SetGenKeepsOwnInv(s, g, gen');
    assert ApplyClose(s, g).gens == s.gens[g := gen'];
  }

  lemma CancelKeepsOwnInv(s: State, g: nat)
    requires OwnInv(s) && WaiterEnabled(s, g, CancelContext)
    ensures OwnInv(ApplyCancel(s, g))
  {
    var gen := s.gens[g];
    assert Owned(g, gen);
    var gen' := gen.(stage := Cancelled, cancelled := true);
    SetGenKeepsOwnInv(s, g, gen');
    assert ApplyCancel(s, g).gens == s.gens[g := gen'];
  }

  lemma LocalMoveIsOwned(s: State, g: nat, w: WaiterStep)
    requires WaiterEnabled(s, g, w) && IsLocal(w) && Owned(g, s.gens[g])
    requires !s.gens[g].stage.AtLeast(ChannelRead) ==> s.cancel == g && s.waitCh == g
    ensures Owned(g, LocalMove(s, g, w)) && LocalMove(s, g, w).stage.AtLeast(s.gens[g].stage)
  {
  }

  lemma LocalMoveKeepsOwnInv(s: State, g: nat, w: WaiterStep)
    requires KillInv(s) && OwnInv(s) && WaiterEnabled(s, g, w) && IsLocal(w)
    ensures OwnInv(SetGen(s, g, LocalMove(s, g, w)))
  {
    EarlyWaiterIsNewest(s, g);
    assert Owned(g, s.gens[g]);
    LocalMoveIsOwned(s, g, w);
    SetGenKeepsOwnInv(s, g, LocalMove(s, g, w));
  }

  lemma WaiterKeepsOwnInv(s: State, g: nat, w: WaiterStep)
    requires KillInv(s) && OwnInv(s) && WaiterEnabled(s, g, w)
    ensures OwnInv(WaiterApply(s, g, w))
  {
    if w.Send? { SendKeepsOwnInv(s, g); }
    else if w.Close? { CloseKeepsOwnInv(s, g); }
    else if w.CancelContext? { CancelKeepsOwnInv(s, g); }
    else { LocalMoveKeepsOwnInv(s, g, w); }
  }

  lemma StepKeepsOwnInv(s: State, step: Step)
    requires KillInv(s) && OwnInv(s) && Enabled(s, step) && Timely(s, step)
    ensures OwnInv(Apply(s, step))
  {
    match step {
      case Holder(h) => HolderKeepsOwnInv(s, h);
      case Waiter(g, w) => WaiterKeepsOwnInv(s, g, w);
      case Receive(c) =>
        var gen := s.gens[c];
        assert Owned(c, gen);
        if gen.channel.buffer != [] {
          SetGenKeepsOwnInv(s, c, gen.(channel := gen.channel.(buffer := [])));
          assert gen.channel.buffer[1..] == [];
        }
      case LockStart(_) =>
      case LockRestart(_) =>
    }
  }

  lemma {:induction false} TimelyRunsKeepOwnInv(s: State, steps: seq<Step>)
    requires KillInv(s) && OwnInv(s) && Run(s, steps).Some? && TimelyRun(s, steps)
    ensures KillInv(Run(s, steps).value) && OwnInv(Run(s, steps).value)
    decreases |steps|
  {
    RunsKeepKillInv(s, steps);
    if steps != [] {
      var front := steps[..|steps| - 1];
      TimelyRunsKeepOwnInv(s, front);
      StepKeepsOwnInv(Run(s, front).value, steps[|steps| - 1]);
    }
  }

  /** What a caller may rely on: the channel of a generation carries at most one
      value, from its own waiter; it is closed at most once (a second close would
      panic) and only after the send; the send neither blocks nor panics; and only
      then is the generation's context cancelled. */
  predicate ChannelBelongsTo(s: State, g: nat)
    requires g < |s.gens|
  {
    var gen := s.gens[g];
    && |gen.channel.sent| <= 1
    && (forall m :: m in gen.channel.sent ==> m == Message(g, gen.outcome))
    && (gen.channel.closed ==> |gen.channel.sent| == 1)
    && (gen.cancelled ==> gen.channel.closed)
    && (gen.stage == ChannelRead ==> WaiterEnabled(s, g, Send) && !ApplySend(s, g).panicked)
    && (gen.stage == Sent ==> !ApplyClose(s, g).panicked)
  }

  ghost predicate ChannelsOwned(s: State) {
    && !s.panicked
    && forall g :: 0 <= g < |s.gens| ==> ChannelBelongsTo(s, g)
  }

  lemma OwnInvMeansOwned(s: State)
    requires OwnInv(s)
    ensures ChannelsOwned(s)
  {
    forall g | 0 <= g < |s.gens| ensures ChannelBelongsTo(s, g) {
      assert Owned(g, s.gens[g]);
    }
  }

  /** In every run in which isProcExited is timely, every channel belongs to the
      waiter of its own generation. */
  lemma TimelyRunsOwnChannels(steps: seq<Step>)
    requires Run(INITIAL, steps).Some? && TimelyRun(INITIAL, steps)
    ensures ChannelsOwned(Run(INITIAL, steps).value)
  {
    TimelyRunsKeepOwnInv(INITIAL, steps);
    OwnInvMeansOwned(Run(INITIAL, steps).value);
  }

  // ----- The assumption cannot be weakened

  lemma Extend(s: State, steps: seq<Step>, t: State, step: Step) returns (steps': seq<Step>, t': State)
    requires Run(s, steps) == Some(t) && Enabled(t, step)
    ensures steps' == steps + [step] && t' == Apply(t, step)
    ensures Run(s, steps') == Some(t')
  {
    steps', t' := steps + [step], Apply(t, step);
    assert steps'[..|steps|] == steps;
  }

  /** A step of a waiter, or a step of the holder of the mutex that keeps it. */
  predicate Quiet(step: Step) {
    || step.Waiter?
    || (step.Holder? && (step.h == StoreFlag || step.h == SignalDelivered || step.h == PollRunning
                         || step.h == UpdateField || step.h == CmdStarts))
  }

  predicate AllQuiet(steps: seq<Step>) {
    forall i :: 0 <= i < |steps| ==> Quiet(steps[i])
  }

  predicate NoExitAnswers(steps: seq<Step>) {
    forall i :: 0 <= i < |steps| ==> steps[i] != Holder(PollExited)
  }

  lemma {:induction false} NoExitAnswersIsTimely(s: State, steps: seq<Step>)
    requires NoExitAnswers(steps)
    ensures TimelyRun(s, steps)
    decreases |steps|
  {
    if steps != [] {
      NoExitAnswersIsTimely(s, steps[..|steps| - 1]);
    }
  }

  /** The Process after the fields from the k-th on have been replaced. */
  function AllUpdated(s: State, k: nat): State
    requires s.gens != []
  {
    var newest := |s.gens| - 1;
    Go(s.(ctx := if k <= 0 then newest else s.ctx,
          cancel := if k <= 1 then newest else s.cancel,
          cmd := if k <= 2 then newest else s.cmd,
          waitCh := if k <= 3 then newest else s.waitCh,
          userKilled := if k <= 4 then newest else s.userKilled,
          binName := newest), Starting)
  }

  lemma {:induction false} FinishUpdates(s: State) returns (steps: seq<Step>)
    requires s.gens != [] && !s.panicked && s.lock.Held? && s.lock.at.Updating? && s.lock.at.done <= 5
    ensures Run(s, steps) == Some(AllUpdated(s, s.lock.at.done)) && AllQuiet(steps)
    ensures steps == seq(6 - s.lock.at.done, _ => Holder(UpdateField))
    decreases 6 - s.lock.at.done
  {
    var first, s1 := Extend(s, [], s, Holder(UpdateField));
    if s.lock.at.done == 5 {
      return first;
    }
    var rest := FinishUpdates(s1);
    RunConcat(s, first, rest);
    return first + rest;
  }

  /** The rest of a Restart after kill, up to the go statement, when everything goes
      well. */
  lemma FinishRestart(s: State) returns (steps: seq<Step>, t: State)
    requires s.gens != [] && !s.panicked && AtPoint(s, Updating(0)) && s.gens[|s.gens| - 1] == FRESH
    ensures Run(s, steps) == Some(t) && AllQuiet(steps)
    ensures Enabled(t, Holder(SpawnWaiter)) && t.lock == Held(s.lock.owner, Forking)
    ensures IsRestarted(s, HolderApply(t, SpawnWaiter))
  {
    steps := FinishUpdates(s);
    t := AllUpdated(s, 0);
    steps, t := Extend(s, steps, t, Holder(CmdStarts));
  }

  /** The state after such a Restart, as far as the waiters are concerned. */
  predicate IsRestarted(s: State, t: State)
    requires s.gens != []
  {
    var newest := |s.gens| - 1;
    && !t.panicked && t.lock == Free && t.waitCh == newest
    && t.gens == s.gens[newest := Respawned(newest)]
  }

  lemma CompleteRestart(s: State) returns (steps: seq<Step>, t: State)
    requires s.gens != [] && !s.panicked && AtPoint(s, Updating(0)) && s.gens[|s.gens| - 1] == FRESH
    ensures Run(s, steps) == Some(t) && NoExitAnswers(steps) && IsRestarted(s, t)
  {
    steps, t := FinishRestart(s);
    steps, t := Extend(s, steps, t, Holder(SpawnWaiter));
  }

  /** A generation right after its waiter was spawned. */
  function Respawned(g: nat): Generation {
    FRESH.(started := true, flagOf := g, stage := Spawned)
  }

  predicate BeforeChannelRead(s: State, g: nat) {
    && g < |s.gens| && g <= s.waitCh && !s.panicked && KillStory(g, s.gens[g])
    && s.gens[g].stage != NotSpawned && !s.gens[g].stage.AtLeast(ChannelRead)
  }

  /** The next step of such a waiter, and what it leaves of its generation. */
  function NextMove(gen: Generation): WaiterStep {
    match gen.stage
    case Spawned => ReadCancel
    case CancelRead => ReadClose
    case InWait => if gen.reaped then WaitReturns(Clean) else Reap
    case Waited => LoadFlag
    case _ => ReadSend
  }

  lemma NextMoveIsEnabled(s: State, g: nat)
    requires BeforeChannelRead(s, g)
    ensures Enabled(s, Waiter(g, NextMove(s.gens[g]))) && IsLocal(NextMove(s.gens[g]))
  {
  }

  lemma NextMoveAdvances(s: State, g: nat)
    requires BeforeChannelRead(s, g)
    ensures var a, b := s.gens[g], LocalMove(s, g, NextMove(s.gens[g]));
      && KillStory(g, b) && b.channel == a.channel && b.signalled == a.signalled && b.stage != NotSpawned
      && (b.stage.AtLeast(ChannelRead) ==> b.stage == ChannelRead && b.sendOf == s.waitCh)
      && (b.stage.Rank() > a.stage.Rank() || (b.stage == a.stage && b.reaped && !a.reaped))
  {
  }

  /** A waiter can always get to where it has evaluated d.waitCh for its send, and
      then it has whatever the field holds. */
  lemma {:induction false} WaiterCanAdvance(s: State, g: nat) returns (steps: seq<Step>, t: State)
    requires BeforeChannelRead(s, g)
    ensures Run(s, steps) == Some(t) && AllQuiet(steps)
    ensures t == SetGen(s, g, Gen(t, g)) && |t.gens| == |s.gens| && KillStory(g, t.gens[g])
    ensures t.gens[g].stage == ChannelRead && t.gens[g].sendOf == s.waitCh
    ensures t.gens[g].channel == s.gens[g].channel && t.gens[g].signalled == s.gens[g].signalled
    decreases 10 - s.gens[g].stage.Rank(), !s.gens[g].reaped
  {
    NextMoveIsEnabled(s, g);
    NextMoveAdvances(s, g);
    var w := NextMove(s.gens[g]);
    var first, s1 := Extend(s, [], s, Waiter(g, w));
    assert s1 == SetGen(s, g, LocalMove(s, g, w));
    if s1.gens[g].stage == ChannelRead {
      return first, s1;
    }
    var rest, t1 := WaiterCanAdvance(s1, g);
    RunConcat(s, first, rest);
    return first + rest, t1;
  }

  /** A waiter that has not evaluated d.waitCh yet can deliver to an empty channel
      that the field points to. */
  lemma WaiterCanDeliver(s: State, g: nat, c: nat) returns (steps: seq<Step>, t: State)
    requires g < c < |s.gens| && !s.panicked && s.gens[g].stage != NotSpawned
    requires KillStory(g, s.gens[g]) && s.gens[g].signalled && !s.gens[g].stage.AtLeast(ChannelRead)
    requires s.waitCh == c && s.gens[c].channel == FRESH.channel
    ensures Run(s, steps) == Some(t) && AllQuiet(steps)
    ensures |t.gens| == |s.gens| && !t.panicked
    ensures var m := Message(g, UserKilled);
      t.gens[c] == s.gens[c].(channel := Channel([m], false, [m]))
  {
    var a, s1 := WaiterCanAdvance(s, g);
    assert s1.gens[c] == s.gens[c];
    DeliveryIntoFresh(s1, g, c);
    steps, t := Extend(s, a, s1, Waiter(g, Send));
  }

  lemma DeliveryIntoFresh(s: State, g: nat, c: nat)
    requires g < c < |s.gens| && !s.panicked && s.gens[g].stage == ChannelRead && s.gens[g].sendOf == c
    requires s.gens[c].channel == FRESH.channel && KillStory(g, s.gens[g]) && s.gens[g].signalled
    ensures Enabled(s, Waiter(g, Send))
    ensures var t := Apply(s, Waiter(g, Send)); var m := Message(g, UserKilled);
      && |t.gens| == |s.gens| && !t.panicked
      && t.gens[c] == s.gens[c].(channel := Channel([m], false, [m]))
  {
    var m := Message(g, UserKilled);
    assert s.gens[g].outcome == UserKilled;
    assert [] + [m] == [m];
  }

  lemma FinishAndDeliver(s: State, g: nat) returns (steps: seq<Step>, t: State)
    requires |s.gens| == g + 2 && s.gens[g + 1] == FRESH && !s.panicked && AtPoint(s, Updating(0))
    requires KillStory(g, s.gens[g]) && s.gens[g].signalled
    requires s.gens[g].stage != NotSpawned && !s.gens[g].stage.AtLeast(ChannelRead)
    ensures Run(s, steps) == Some(t) && NoExitAnswers(steps)
    ensures |t.gens| == |s.gens| && SentOn(t, g + 1) == [Message(g, UserKilled)]
  {
    var a, s1 := CompleteRestart(s);
    assert s1.gens[g] == s.gens[g] && s1.gens[g + 1] == Respawned(g + 1);
    var b, s2 := WaiterCanDeliver(s1, g, g + 1);
    RunConcat(s, a, b);
    return a + b, s2;
  }

  /** If isProcExited answers before the waiter has evaluated d.waitCh, the run can
      go on so that the old waiter's value ends up in the new generation's channel. */
  lemma EarlyAnswerMisdelivers(s: State) returns (steps: seq<Step>, t: State)
    requires KillInv(s) && OwnInv(s) && AtPoint(s, Polling)
    requires !Gen(s, s.cmd).stage.AtLeast(ChannelRead)
    ensures Run(Apply(s, Holder(PollExited)), steps) == Some(t) && NoExitAnswers(steps)
    ensures |t.gens| == |s.gens| + 1
    ensures SentOn(t, |s.gens|) == [Message(|s.gens| - 1, UserKilled)]
  {
    var before := |s.gens| - 1;
    assert KillStory(before, s.gens[before]);
    var s0 := Apply(s, Holder(PollExited));
    assert s0.gens == s.gens + [FRESH] && s0.lock == Held(s.lock.owner, Updating(0));
    steps, t := FinishAndDeliver(s0, before);
  }

  /** At the moment isProcExited answers "exited", every channel stays owned in every
      continuation with timely answers if and only if this answer is timely. */
  lemma AnswerIsSafeIffTimely(s: State)
    requires KillInv(s) && OwnInv(s) && AtPoint(s, Polling)
    ensures Timely(s, Holder(PollExited)) <==>
      forall steps ::
        var s0 := Apply(s, Holder(PollExited));
        Run(s0, steps).Some? && TimelyRun(s0, steps) ==> ChannelsOwned(Run(s0, steps).value)
  {
    var s0 := Apply(s, Holder(PollExited));
    StepKeepsKillInv(s, Holder(PollExited));
    if Timely(s, Holder(PollExited)) {
      StepKeepsOwnInv(s, Holder(PollExited));
      forall steps | Run(s0, steps).Some? && TimelyRun(s0, steps)
        ensures ChannelsOwned(Run(s0, steps).value)
      {
        TimelyRunsKeepOwnInv(s0, steps);
        OwnInvMeansOwned(Run(s0, steps).value);
      }
    } else {
      var steps, t := EarlyAnswerMisdelivers(s);
      NoExitAnswersIsTimely(s0, steps);
      assert !ChannelBelongsTo(t, |s.gens|) by {
        assert Message(|s.gens| - 1, UserKilled) in SentOn(t, |s.gens|);
      }
    }
  }

  /** A concrete run: Start, then Restart while the waiter is still in cmd.Wait, and
      isProcExited answering at once. The value of waiter 0 lands in channel 1. */
  const EARLY_ANSWER_TRACE: seq<Step> := STARTED + KILLED + REPLACED + DECISION + DELIVERY

  const STARTED: seq<Step> := [
    LockStart(0), Holder(CmdStarts), Holder(SpawnWaiter), Waiter(0, ReadCancel), Waiter(0, ReadClose)]
  const KILLED: seq<Step> := [LockRestart(0), Holder(StoreFlag), Holder(SignalDelivered), Holder(PollExited)]
  const REPLACED: seq<Step> := [
    Holder(UpdateField), Holder(UpdateField), Holder(UpdateField), Holder(UpdateField), Holder(UpdateField),
    Holder(UpdateField), Holder(CmdStarts), Holder(SpawnWaiter)]
  const DECISION: seq<Step> := [Waiter(0, Reap), Waiter(0, WaitReturns(Clean)), Waiter(0, LoadFlag)]
  const DELIVERY: seq<Step> := [Waiter(0, ReadSend), Waiter(0, Send)]

  const WAITING: Generation := FRESH.(started := true, stage := InWait)
  const SECOND: Generation := FRESH.(started := true, flagOf := 1, stage := Spawned)
  const DECIDED: Generation := SIGNALLED.(reaped := true, stage := Decided, outcome := UserKilled)
  const SIGNALLED: Generation := WAITING.(killFlag := true, killRun := true, signalled := true)

  lemma TraceStarted()
    ensures Run(INITIAL, STARTED) == Some(State([WAITING], 0, 0, 0, 0, 0, 0, Free, false))
  {
    var steps, t := Extend(INITIAL, [], INITIAL, LockStart(0));
    steps, t := Extend(INITIAL, steps, t, Holder(CmdStarts));
    steps, t := Extend(INITIAL, steps, t, Holder(SpawnWaiter));
    assert t.gens == [Respawned(0)];
    steps, t := Extend(INITIAL, steps, t, Waiter(0, ReadCancel));
    steps, t := Extend(INITIAL, steps, t, Waiter(0, ReadClose));
    assert t.gens == [WAITING];
    assert steps == STARTED;
  }

  lemma TraceKilled()
    ensures Run(State([WAITING], 0, 0, 0, 0, 0, 0, Free, false), KILLED)
      == Some(State([SIGNALLED, FRESH], 0, 0, 0, 0, 0, 0, Held(0, Updating(0)), false))
  {
    var s := State([WAITING], 0, 0, 0, 0, 0, 0, Free, false);
    var steps, t := Extend(s, [], s, LockRestart(0));
    steps, t := Extend(s, steps, t, Holder(StoreFlag));
    steps, t := Extend(s, steps, t, Holder(SignalDelivered));
    assert t.gens == [SIGNALLED];
    steps, t := Extend(s, steps, t, Holder(PollExited));
    assert t.gens == [SIGNALLED, FRESH];
    assert steps == KILLED;
  }

  lemma TraceReplaced()
    ensures Run(State([SIGNALLED, FRESH], 0, 0, 0, 0, 0, 0, Held(0, Updating(0)), false), REPLACED)
      == Some(State([SIGNALLED, SECOND], 1, 1, 1, 1, 1, 1, Free, false))
  {
    var s := State([SIGNALLED, FRESH], 0, 0, 0, 0, 0, 0, Held(0, Updating(0)), false);
    var steps := FinishUpdates(s);
    var t := State([SIGNALLED, FRESH], 1, 1, 1, 1, 1, 1, Held(0, Starting), false);
    steps, t := Extend(s, steps, t, Holder(CmdStarts));
    steps, t := Extend(s, steps, t, Holder(SpawnWaiter));
    assert t.gens == [SIGNALLED, SECOND];
    assert steps == REPLACED;
  }

  lemma TraceDecided()
    ensures Run(State([SIGNALLED, SECOND], 1, 1, 1, 1, 1, 1, Free, false), DECISION)
      == Some(State([DECIDED, SECOND], 1, 1, 1, 1, 1, 1, Free, false))
  {
    var s := State([SIGNALLED, SECOND], 1, 1, 1, 1, 1, 1, Free, false);
    var steps, t := Extend(s, [], s, Waiter(0, Reap));
    steps, t := Extend(s, steps, t, Waiter(0, WaitReturns(Clean)));
    steps, t := Extend(s, steps, t, Waiter(0, LoadFlag));
    assert t.gens == [DECIDED, SECOND];
    assert steps == DECISION;
  }

  lemma TraceDelivered()
    ensures var s := State([DECIDED, SECOND], 1, 1, 1, 1, 1, 1, Free, false);
      && Run(s, DELIVERY).Some?
      && SentOn(Run(s, DELIVERY).value, 1) == [Message(0, UserKilled)]
      && SentOn(Run(s, DELIVERY).value, 0) == []
  {
    var s := State([DECIDED, SECOND], 1, 1, 1, 1, 1, 1, Free, false);
    var steps, t := Extend(s, [], s, Waiter(0, ReadSend));
    assert t.gens == [DECIDED.(stage := ChannelRead, sendOf := 1), SECOND];
    SendAppends(t, 0);
    steps, t := Extend(s, steps, t, Waiter(0, Send));
    assert steps == DELIVERY;
  }

  lemma EarlyAnswerTrace()
    ensures Run(INITIAL, EARLY_ANSWER_TRACE).Some?
    ensures SentOn(Run(INITIAL, EARLY_ANSWER_TRACE).value, 1) == [Message(0, UserKilled)]
    ensures SentOn(Run(INITIAL, EARLY_ANSWER_TRACE).value, 0) == []
  {
    TraceStarted();
    TraceKilled();
    TraceReplaced();
    TraceDecided();
    TraceDelivered();
    RunConcat(INITIAL, STARTED, KILLED);
    RunConcat(INITIAL, STARTED + KILLED, REPLACED);
    RunConcat(INITIAL, STARTED + KILLED + REPLACED, DECISION);
    RunConcat(INITIAL, STARTED + KILLED + REPLACED + DECISION, DELIVERY);
  }
}
