/** background/process.go: what the state of Process remembers is what has happened.
    The flags of a generation, and the contents of its channel, are read off the
    steps of the run. */
module History {
  import opened GoText
  import opened Process

  /** The holder of the mutex made this step while d.cmd was that of generation g. */
  predicate Did(steps: seq<Step>, g: nat, h: HolderStep)
    decreases |steps|
  {
    steps != [] &&
    var front := steps[..|steps| - 1];
    || Did(front, g, h)
    || (steps[|steps| - 1] == Holder(h) && Run(INITIAL, front).Some? && Run(INITIAL, front).value.cmd == g)
  }

  /** The waiter of generation g, or the OS on its process, made this step. */
  predicate WaiterDid(steps: seq<Step>, g: nat, w: WaiterStep) {
    Waiter(g, w) in steps
  }

  predicate HasReturned(gen: Generation) {
    gen.stage.AtLeast(Waited)
  }

  /** What is remembered of generation g. */
  predicate Remembers(steps: seq<Step>, g: nat, gen: Generation) {
    && (gen.started <==> Did(steps, g, CmdStarts))
    && (gen.killRun <==> Did(steps, g, StoreFlag))
    && (gen.signalled <==> Did(steps, g, SignalDelivered))
    && (gen.reaped <==> WaiterDid(steps, g, Reap))
    && (HasReturned(gen) ==> WaiterDid(steps, g, WaitReturns(gen.exit)))
  }

  /** What two generations have in common that no step of a waiter touches. */
  predicate SameFlags(a: Generation, b: Generation) {
    a.started == b.started && a.killRun == b.killRun && a.signalled == b.signalled
  }

  /** ... and that no step of the holder touches. */
  predicate SameWaiting(a: Generation, b: Generation) {
    a.reaped == b.reaped && HasReturned(a) == HasReturned(b) && (HasReturned(a) ==> a.exit == b.exit)
  }

  /** A step of the holder sets one flag, of the generation that d.cmd points to. */
  ghost predicate SetsFlag(s: State, t: State, h: HolderStep) {
    forall g: nat ::
      var a, b := Gen(s, g), Gen(t, g);
      && (b.started <==> a.started || (h == CmdStarts && g == s.cmd))
      && (b.killRun <==> a.killRun || (h == StoreFlag && g == s.cmd))
      && (b.signalled <==> a.signalled || (h == SignalDelivered && g == s.cmd))
      && SameWaiting(a, b)
  }

  lemma StoreFlagSets(s: State)
    requires KillInv(s) && AtPoint(s, Killing)
    ensures SetsFlag(s, HolderApply(s, StoreFlag), StoreFlag)
  {
    var gen := s.gens[s.cmd].(killFlag := true, killRun := true);
    assert HolderApply(s, StoreFlag).gens == s.gens[s.cmd := gen];
  }

  lemma SignalSets(s: State)
    requires KillInv(s) && AtPoint(s, FlagStored)
    ensures SetsFlag(s, HolderApply(s, SignalDelivered), SignalDelivered)
  {
  }

  lemma StartSets(s: State)
    requires KillInv(s) && AtPoint(s, Starting)
    ensures SetsFlag(s, HolderApply(s, CmdStarts), CmdStarts)
  {
  }

  lemma SpawnSets(s: State)
    requires KillInv(s) && AtPoint(s, Forking)
    ensures SetsFlag(s, HolderApply(s, SpawnWaiter), SpawnWaiter)
  {
  }

  lemma ExitedSets(s: State)
    ensures SetsFlag(s, HolderApply(s, PollExited), PollExited)
  {
    assert HolderApply(s, PollExited).gens == s.gens + [FRESH];
  }

  lemma SameGensSetNothing(s: State, t: State, h: HolderStep)
    requires t.gens == s.gens && TouchesNoGeneration(h)
    ensures SetsFlag(s, t, h)
  {
  }

  lemma HolderSets(s: State, h: HolderStep)
    requires KillInv(s) && HolderEnabled(s, h)
    ensures SetsFlag(s, HolderApply(s, h), h)
  {
    match h {
      case StoreFlag => StoreFlagSets(s);
      case SignalDelivered => SignalSets(s);
      case PollExited => ExitedSets(s);
      case CmdStarts => StartSets(s);
      case SpawnWaiter => SpawnSets(s);
      case _ =>
        QuietHolderKeepsGens(s, h);
        SameGensSetNothing(s, HolderApply(s, h), h);
    }
  }

  /** A step of a waiter, or of anybody else, leaves the flags alone and moves only
      the waiting of its own generation. */
  ghost predicate Waits(s: State, t: State, step: Step) {
    forall g: nat ::
      var a, b := Gen(s, g), Gen(t, g);
      && SameFlags(a, b)
      && (b.reaped <==> a.reaped || step == Waiter(g, Reap))
      && (HasReturned(b) ==> (HasReturned(a) && b.exit == a.exit) || step == Waiter(g, WaitReturns(b.exit)))
  }

  lemma SetGenWaits(s: State, g: nat, gen: Generation, step: Step)
    requires SameFlags(Gen(s, g), gen)
    requires gen.reaped <==> Gen(s, g).reaped || step == Waiter(g, Reap)
    requires HasReturned(gen) ==>
      (HasReturned(Gen(s, g)) && gen.exit == Gen(s, g).exit) || step == Waiter(g, WaitReturns(gen.exit))
    requires g < |s.gens| && (step.Waiter? && (step.w == Reap || step.w.WaitReturns?) ==> step.g == g)
    ensures Waits(s, SetGen(s, g, gen), step)
  {
  }

  ghost predicate AllSame(s: State, t: State) {
    forall g: nat :: SameFlags(Gen(s, g), Gen(t, g)) && SameWaiting(Gen(s, g), Gen(t, g))
  }

  lemma SetGenSame(s: State, g: nat, gen: Generation)
    requires SameFlags(Gen(s, g), gen) && SameWaiting(Gen(s, g), gen)
    ensures AllSame(s, SetGen(s, g, gen))
  {
  }

  lemma SameWaits(s: State, t: State, step: Step)
    requires AllSame(s, t) && (step.Waiter? ==> step.w != Reap && !step.w.WaitReturns?)
    ensures Waits(s, t, step)
  {
  }

  /** A waiter past cmd.Wait changes some channel or context, and moves on. */
  lemma TwoChangesWait(s: State, c: nat, gen: Generation, g: nat, stage: Stage)
    requires gen == Gen(s, c).(channel := gen.channel, cancelled := gen.cancelled)
    requires HasReturned(Gen(s, g)) && stage.AtLeast(Waited)
    ensures AllSame(s, SetStage(SetGen(s, c, gen), g, stage))
  {
    var s1 := SetGen(s, c, gen);
    SetGenSame(s, c, gen);
    SetGenSame(s1, g, Gen(s1, g).(stage := stage));
  }

  lemma SendWaits(s: State, g: nat)
    requires WaiterEnabled(s, g, Send)
    ensures AllSame(s, ApplySend(s, g))
  {
    var to := Gen(s, Gen(s, g).sendOf);
    var m := Message(g, Gen(s, g).outcome);
    TwoChangesWait(s, Gen(s, g).sendOf,
      to.(channel := Channel(to.channel.buffer + [m], false, to.channel.sent + [m])), g, Sent);
  }

  lemma CloseWaits(s: State, g: nat)
    requires WaiterEnabled(s, g, Close)
    ensures AllSame(s, ApplyClose(s, g))
  {
    var owner := Gen(s, Gen(s, g).closeOf);
    TwoChangesWait(s, Gen(s, g).closeOf, owner.(channel := owner.channel.(closed := true)), g, ChannelClosed);
  }

  lemma CancelWaits(s: State, g: nat)
    requires WaiterEnabled(s, g, CancelContext)
    ensures AllSame(s, ApplyCancel(s, g))
  {
    var owner := Gen(s, Gen(s, g).cancelOf);
    TwoChangesWait(s, Gen(s, g).cancelOf, owner.(cancelled := true), g, Cancelled);
  }

  lemma WaiterWaits(s: State, g: nat, w: WaiterStep)
    requires WaiterEnabled(s, g, w)
    ensures Waits(s, WaiterApply(s, g, w), Waiter(g, w))
  {
    match w {
      case Send =>
        SendWaits(s, g);
        SameWaits(s, ApplySend(s, g), Waiter(g, w));
      case Close =>
        CloseWaits(s, g);
        SameWaits(s, ApplyClose(s, g), Waiter(g, w));
      case CancelContext =>
        CancelWaits(s, g);
        SameWaits(s, ApplyCancel(s, g), Waiter(g, w));
      case _ =>
        LocalMoveWaits(s, g, w);
        SetGenWaits(s, g, LocalMove(s, g, w), Waiter(g, w));
    }
  }

  lemma LocalMoveWaits(s: State, g: nat, w: WaiterStep)
    requires WaiterEnabled(s, g, w) && IsLocal(w)
    ensures var a, b := Gen(s, g), LocalMove(s, g, w);
      && SameFlags(a, b)
      && (b.reaped <==> a.reaped || w == Reap)
      && (HasReturned(b) ==> (HasReturned(a) && b.exit == a.exit) || w == WaitReturns(b.exit))
  {
  }

  lemma ReceiveWaits(s: State, c: nat)
    ensures Waits(s, Apply(s, Receive(c)), Receive(c))
  {
  }

  lemma LockWaits(s: State, t: State, step: Step)
    requires t.gens == s.gens && !step.Waiter?
    ensures Waits(s, t, step)
  {
  }

  ghost predicate RemembersAll(steps: seq<Step>, s: State) {
    forall g: nat :: Remembers(steps, g, Gen(s, g))
  }

  lemma DidSnoc(steps: seq<Step>, front: seq<Step>, step: Step, g: nat, h: HolderStep)
    requires steps == front + [step] && Run(INITIAL, front).Some?
    ensures Did(steps, g, h) <==> Did(front, g, h) || (step == Holder(h) && Run(INITIAL, front).value.cmd == g)
  {
    assert steps[..|steps| - 1] == front;
  }

  lemma DidAllSnoc(steps: seq<Step>, front: seq<Step>, step: Step, g: nat)
    requires steps == front + [step] && Run(INITIAL, front).Some?
    ensures var cmd := Run(INITIAL, front).value.cmd;
      && (Did(steps, g, CmdStarts) <==> Did(front, g, CmdStarts) || (step == Holder(CmdStarts) && cmd == g))
      && (Did(steps, g, StoreFlag) <==> Did(front, g, StoreFlag) || (step == Holder(StoreFlag) && cmd == g))
      && (Did(steps, g, SignalDelivered) <==>
            Did(front, g, SignalDelivered) || (step == Holder(SignalDelivered) && cmd == g))
  {
    DidSnoc(steps, front, step, g, CmdStarts);
    DidSnoc(steps, front, step, g, StoreFlag);
    DidSnoc(steps, front, step, g, SignalDelivered);
  }

  lemma HolderStepRemembered(front: seq<Step>, s: State, t: State, h: HolderStep, g: nat)
    requires Run(INITIAL, front) == Some(s) && SetsFlag(s, t, h) && Remembers(front, g, Gen(s, g))
    ensures Remembers(front + [Holder(h)], g, Gen(t, g))
  {
    DidAllSnoc(front + [Holder(h)], front, Holder(h), g);
  }

  lemma OtherStepRemembered(front: seq<Step>, s: State, t: State, step: Step, g: nat)
    requires Run(INITIAL, front) == Some(s) && Waits(s, t, step) && !step.Holder? && Remembers(front, g, Gen(s, g))
    ensures Remembers(front + [step], g, Gen(t, g))
  {
    DidAllSnoc(front + [step], front, step, g);
  }

  lemma StepIsRemembered(front: seq<Step>, s: State, step: Step)
    requires Run(INITIAL, front) == Some(s) && KillInv(s) && Enabled(s, step) && RemembersAll(front, s)
    ensures RemembersAll(front + [step], Apply(s, step))
  {
    var t := Apply(s, step);
    match step {
      case Holder(h) => HolderSets(s, h);
      case Waiter(g, w) => WaiterWaits(s, g, w);
      case Receive(c) => ReceiveWaits(s, c);
      case LockStart(_) => LockWaits(s, t, step);
      case LockRestart(_) => LockWaits(s, t, step);
    }
    forall g: nat ensures Remembers(front + [step], g, Gen(t, g)) {
      assert Remembers(front, g, Gen(s, g));
      if step.Holder? {
        HolderStepRemembered(front, s, t, step.h, g);
      } else {
        OtherStepRemembered(front, s, t, step, g);
      }
    }
  }

  /** In every run, a process was started, killed, signalled or waited for if and only
      if the state says so, and what cmd.Wait returned is what is remembered. */
  lemma {:induction false} RunsAreRemembered(steps: seq<Step>)
    requires Run(INITIAL, steps).Some?
    ensures RemembersAll(steps, Run(INITIAL, steps).value)
    decreases |steps|
  {
    if steps == [] {
      NothingIsRemembered();
    } else {
      var front := steps[..|steps| - 1];
      RunsAreRemembered(front);
      KillInvInitially();
      RunsKeepKillInv(INITIAL, front);
      StepIsRemembered(front, Run(INITIAL, front).value, steps[|steps| - 1]);
      assert front + [steps[|steps| - 1]] == steps;
    }
  }

  lemma NothingIsRemembered()
    ensures RemembersAll([], INITIAL)
  {
  }

  /** What has happened before a value could be in a channel. */
  predicate HasHappened(steps: seq<Step>, m: Message) {
    && (m.outcome == UserKilled ==> Did(steps, m.from, StoreFlag))
    && (Did(steps, m.from, SignalDelivered) ==> m.outcome == UserKilled)
    && (m.outcome != UserKilled ==> WaiterDid(steps, m.from, WaitReturns(m.outcome)))
  }

  /** KillOutcomes in terms of the steps alone. In every interleaving a value in a
      channel is ErrUserKilled only if kill stored the flag for its sender's process,
      and nothing else if kill's signal was delivered to that; any other value is what
      cmd.Wait returned for it. */
  lemma ValuesTellWhatHappened(steps: seq<Step>)
    requires Run(INITIAL, steps).Some?
    ensures var s := Run(INITIAL, steps).value;
      forall c: nat, m :: m in SentOn(s, c) || m in BufferOf(s, c) ==> HasHappened(steps, m)
  {
    var s := Run(INITIAL, steps).value;
    KillOutcomes(steps);
    RunsAreRemembered(steps);
    KillInvInitially();
    RunsKeepMessages(INITIAL, steps);
    forall c: nat, m | m in SentOn(s, c) || m in BufferOf(s, c) ensures HasHappened(steps, m) {
      assert AllOk(s, c, SentOn(s, c)) && AllOk(s, c, BufferOf(s, c));
      assert MessageOk(s, c, m) && Truthful(s, c, m);
      assert Remembers(steps, m.from, Gen(s, m.from));
    }
  }

  // ----- Channels lose nothing

  /** The values received from channel c, in order. */
  function TakenFrom(steps: seq<Step>, c: nat): seq<Message>
    decreases |steps|
  {
    if steps == [] then []
    else
      var front := steps[..|steps| - 1];
      var before := Run(INITIAL, front);
      TakenFrom(front, c) +
      if steps[|steps| - 1] == Receive(c) && before.Some? && BufferOf(before.value, c) != []
      then [BufferOf(before.value, c)[0]] else []
  }

  lemma SendConserves(s: State, g: nat, c: nat, taken: seq<Message>)
    requires WaiterEnabled(s, g, Send) && SentOn(s, c) == taken + BufferOf(s, c)
    ensures SentOn(ApplySend(s, g), c) == taken + BufferOf(ApplySend(s, g), c)
  {
    if !Gen(s, s.gens[g].sendOf).channel.closed {
      SendAppends(s, g);
    }
  }

  lemma OtherConserves(s: State, step: Step, c: nat)
    requires Enabled(s, step) && step != Receive(c) && !(step.Waiter? && step.w.Send?)
    ensures SentOn(Apply(s, step), c) == SentOn(s, c) && BufferOf(Apply(s, step), c) == BufferOf(s, c)
  {
    match step {
      case Holder(h) => HolderSendsNothing(s, h);
      case Waiter(g, w) => WaiterSendsNothingElse(s, g, w);
      case Receive(d) =>
      case LockStart(_) =>
      case LockRestart(_) =>
    }
  }

  lemma ReceiveConserves(s: State, c: nat, taken: seq<Message>)
    requires Enabled(s, Receive(c)) && SentOn(s, c) == taken + BufferOf(s, c)
    ensures var first := if BufferOf(s, c) == [] then [] else [BufferOf(s, c)[0]];
      SentOn(Apply(s, Receive(c)), c) == taken + first + BufferOf(Apply(s, Receive(c)), c)
  {
    var t := Apply(s, Receive(c));
    if BufferOf(s, c) != [] {
      assert BufferOf(t, c) == BufferOf(s, c)[1..];
      assert [BufferOf(s, c)[0]] + BufferOf(s, c)[1..] == BufferOf(s, c);
      assert taken + [BufferOf(s, c)[0]] + BufferOf(t, c) == taken + BufferOf(s, c);
    } else {
      assert taken + [] == taken;
    }
  }

  /** In every run, what was sent on a channel is what was received from it, in order,
      followed by what is still in it: nothing is lost, doubled or reordered. */
  lemma {:induction false} ChannelsConserve(steps: seq<Step>, c: nat)
    requires Run(INITIAL, steps).Some?
    ensures var s := Run(INITIAL, steps).value; SentOn(s, c) == TakenFrom(steps, c) + BufferOf(s, c)
    decreases |steps|
  {
    if steps != [] {
      var front, step := steps[..|steps| - 1], steps[|steps| - 1];
      var s := Run(INITIAL, front).value;
      ChannelsConserve(front, c);
      if step == Receive(c) {
        ReceiveConserves(s, c, TakenFrom(front, c));
      } else {
        assert TakenFrom(front, c) + [] == TakenFrom(front, c);
        if step.Waiter? && step.w.Send? {
          SendConserves(s, step.g, c, TakenFrom(front, c));
        } else {
          OtherConserves(s, step, c);
        }
      }
    }
  }

  // ----- Channels hold one value

  ghost predicate CapacityOne(s: State) {
    forall c: nat :: |BufferOf(s, c)| <= 1
  }

  lemma SendKeepsCapacity(s: State, g: nat)
    requires CapacityOne(s) && WaiterEnabled(s, g, Send)
    ensures CapacityOne(ApplySend(s, g))
  {
    var t := ApplySend(s, g);
    forall c: nat ensures |BufferOf(t, c)| <= 1 {
      assert |BufferOf(s, c)| <= 1;
      if !Gen(s, s.gens[g].sendOf).channel.closed {
        SendAppends(s, g);
      }
    }
  }

  /** In every run no channel holds more than its capacity of one value, because the
      send waits for room. */
  lemma {:induction false} RunsKeepCapacity(steps: seq<Step>)
    requires Run(INITIAL, steps).Some?
    ensures CapacityOne(Run(INITIAL, steps).value)
    decreases |steps|
  {
    if steps != [] {
      var front, step := steps[..|steps| - 1], steps[|steps| - 1];
      var s := Run(INITIAL, front).value;
      RunsKeepCapacity(front);
      if step.Waiter? && step.w.Send? {
        SendKeepsCapacity(s, step.g);
      } else {
        forall c: nat ensures |BufferOf(Apply(s, step), c)| <= 1 {
          assert |BufferOf(s, c)| <= 1;
          if step.Receive? {
            ReceiveTakesFirst(s, step.c);
          } else {
            OtherConserves(s, step, c);
          }
        }
      }
    }
  }
}
