/** background/process.go: a restartable background process as a system of
    interleaved steps. Restart replaces the fields of the Process one by one; one
    waiter goroutine per started generation reads those fields without the lock.

    Every object that New or Restart creates (context, command, channel, kill
    flag) is named by the number of its generation, so a field of the Process
    holds the number of the generation whose object it points to. */
module Process {
  import opened GoText

  /** What a waiter sends: nil, ErrUserKilled, or the exit error of the command. */
  datatype Outcome = Clean | UserKilled | ExitError(noSpace: bool)

  /** A value in a channel, tagged with the generation whose waiter sent it. */
  datatype Message = Message(from: nat, outcome: Outcome)

  /** A channel of capacity 1 and everything that was ever sent on it. */
  datatype Channel = Channel(buffer: seq<Message>, closed: bool, sent: seq<Message>)

  /** How far a waiter goroutine has come (lines 138-157). */
  datatype Stage =
    | NotSpawned
    | Spawned        // the go statement has run, the goroutine has not
    | CancelRead     // d.cancel evaluated for the first defer
    | InWait         // d.waitCh evaluated for the second defer; in cmd.Wait
    | Waited         // cmd.Wait has returned
    | Decided        // the kill flag has been loaded
    | ChannelRead    // d.waitCh evaluated for the send
    | Sent
    | ChannelClosed
    | Cancelled
  {
    function Rank(): nat {
      match this
      case NotSpawned => 0
      case Spawned => 1
      case CancelRead => 2
      case InWait => 3
      case Waited => 4
      case Decided => 5
      case ChannelRead => 6
      case Sent => 7
      case ChannelClosed => 8
      case Cancelled => 9
    }

    predicate AtLeast(other: Stage) {
      Rank() >= other.Rank()
    }
  }

  datatype Generation = Generation(
    started: bool,       // cmd.Start succeeded, so OSProcess() is not nil
    reaped: bool,        // the OS process has been waited for
    killFlag: bool,      // *userKilled == 1
    killRun: bool,       // kill ran on this generation's command
    signalled: bool,     // ... and its signal was delivered
    cancelled: bool,     // this generation's context is cancelled
    channel: Channel,
    stage: Stage,
    flagOf: nat,         // generation of the flag captured at line 136
    cancelOf: nat,       // generation of d.cancel at line 139
    closeOf: nat,        // generation of d.waitCh at line 140
    sendOf: nat,         // generation of d.waitCh at the send
    exit: Outcome,       // what cmd.Wait returned
    outcome: Outcome)    // what the waiter decided to send

  const FRESH := Generation(false, false, false, false, false, false, Channel([], false, []),
                            NotSpawned, 0, 0, 0, 0, Clean, Clean)

  /** Where the holder of the mutex is. */
  datatype Point =
    | Killing              // Restart: at the OSProcess check of kill
    | FlagStored           // userKilled has been set to 1
    | Polling              // the signal was delivered; polling /proc
    | Updating(done: nat)  // kill returned nil; so many of the six fields are replaced
    | Starting             // in startProcess, before cmd.Start
    | Forking              // cmd.Start succeeded and the flag is captured

  datatype Lock = Free | Held(owner: nat, at: Point)

  datatype State = State(
    gens: seq<Generation>,
    ctx: nat, cancel: nat, cmd: nat, waitCh: nat, userKilled: nat, binName: nat,
    lock: Lock,
    panicked: bool)

  const INITIAL := State([FRESH], 0, 0, 0, 0, 0, 0, Free, false)

  /** Steps of whoever holds the mutex. */
  datatype HolderStep =
    | NotStarted             // kill: "cmd has not been started"
    | StoreFlag
    | SignalDelivered
    | SignalFails
    | PollRunning
    | PollExited             // isProcExited answered true
    | PollFails              // isProcExited failed, or the context is done
    | UpdateField
    | CmdStarts
    | CmdFails
    | SpawnWaiter            // and unlock: Start or Restart returns nil

  /** Steps of the waiter of one generation, and of the OS on its process. */
  datatype WaiterStep =
    | ReadCancel
    | ReadClose
    | Reap
    | WaitReturns(exit: Outcome)
    | LoadFlag
    | ReadSend
    | Send
    | Close
    | CancelContext

  datatype Step =
    | LockStart(owner: nat)
    | LockRestart(owner: nat)
    | Holder(h: HolderStep)
    | Waiter(g: nat, w: WaiterStep)
    | Receive(c: nat)        // by anybody who got the channel from Wait

  function Gen(s: State, g: nat): Generation {
    if g < |s.gens| then s.gens[g] else FRESH
  }

  function SetGen(s: State, g: nat, gen: Generation): State {
    if g < |s.gens| then s.(gens := s.gens[g := gen]) else s
  }

  predicate AtPoint(s: State, p: Point) {
    s.lock.Held? && s.lock.at == p
  }

  function Go(s: State, p: Point): State {
    if s.lock.Held? then s.(lock := Held(s.lock.owner, p)) else s
  }

  /** A delivered signal needs a process that has not been reaped, and exec.Cmd
      starts at most once. */
  predicate HolderEnabled(s: State, h: HolderStep) {
    match h
    case NotStarted => AtPoint(s, Killing) && !Gen(s, s.cmd).started
    case StoreFlag => AtPoint(s, Killing) && Gen(s, s.cmd).started
    case SignalDelivered => AtPoint(s, FlagStored) && !Gen(s, s.cmd).reaped
    case SignalFails => AtPoint(s, FlagStored)
    case PollRunning => AtPoint(s, Polling)
    case PollExited => AtPoint(s, Polling)
    case PollFails => AtPoint(s, Polling)
    case UpdateField => s.lock.Held? && s.lock.at.Updating?
    case CmdStarts => AtPoint(s, Starting) && !Gen(s, s.cmd).started
    case CmdFails => AtPoint(s, Starting)
    case SpawnWaiter => AtPoint(s, Forking)
  }

  /** Lines 96 to 102, one assignment at a time. */
  function UpdateOne(s: State, done: nat): State {
    var newest := if s.gens == [] then 0 else |s.gens| - 1;
    if done == 0 then Go(s.(ctx := newest), Updating(1))
    else if done == 1 then Go(s.(cancel := newest), Updating(2))
    else if done == 2 then Go(s.(cmd := newest), Updating(3))
    else if done == 3 then Go(s.(waitCh := newest), Updating(4))
    else if done == 4 then Go(s.(userKilled := newest), Updating(5))
    else Go(s.(binName := newest), Starting)
  }

  function HolderApply(s: State, h: HolderStep): State {
    match h
    case NotStarted => s.(lock := Free)
    case StoreFlag =>
      var s1 := SetGen(s, s.userKilled, Gen(s, s.userKilled).(killFlag := true));
      Go(SetGen(s1, s.cmd, Gen(s1, s.cmd).(killRun := true)), FlagStored)
    case SignalDelivered => Go(SetGen(s, s.cmd, Gen(s, s.cmd).(signalled := true)), Polling)
    case SignalFails => s.(lock := Free)
    case PollRunning => s
    case PollExited => Go(s.(gens := s.gens + [FRESH]), Updating(0))
    case PollFails => s.(lock := Free)
    case UpdateField => if s.lock.Held? && s.lock.at.Updating? then UpdateOne(s, s.lock.at.done) else s
    case CmdStarts => Go(SetGen(s, s.cmd, Gen(s, s.cmd).(started := true, flagOf := s.userKilled)), Forking)
    case CmdFails => s.(lock := Free)
    case SpawnWaiter => SetGen(s, s.cmd, Gen(s, s.cmd).(stage := Spawned)).(lock := Free)
  }

  function SetChannel(s: State, c: nat, ch: Channel): State {
    SetGen(s, c, Gen(s, c).(channel := ch))
  }

  function SetStage(s: State, g: nat, stage: Stage): State {
    SetGen(s, g, Gen(s, g).(stage := stage))
  }

  /** A send on a full channel blocks. */
  predicate WaiterEnabled(s: State, g: nat, w: WaiterStep) {
    && g < |s.gens|
    && var gen := Gen(s, g);
       match w
       case ReadCancel => gen.stage == Spawned
       case ReadClose => gen.stage == CancelRead
       case Reap => gen.stage == InWait && !gen.reaped
       case WaitReturns(exit) => gen.stage == InWait && gen.reaped && exit != UserKilled
       case LoadFlag => gen.stage == Waited
       case ReadSend => gen.stage == Decided
       case Send => gen.stage == ChannelRead
         && (Gen(s, gen.sendOf).channel.closed || Gen(s, gen.sendOf).channel.buffer == [])
       case Close => gen.stage == Sent
       case CancelContext => gen.stage == ChannelClosed
  }

  function ApplySend(s: State, g: nat): State {
    var c := Gen(s, g).sendOf;
    var ch := Gen(s, c).channel;
    var m := Message(g, Gen(s, g).outcome);
    if ch.closed then s.(panicked := true)
    else SetStage(SetChannel(s, c, Channel(ch.buffer + [m], false, ch.sent + [m])), g, Sent)
  }

  function ApplyClose(s: State, g: nat): State {
    var c := Gen(s, g).closeOf;
    var ch := Gen(s, c).channel;
    if ch.closed then s.(panicked := true)
    else SetStage(SetChannel(s, c, ch.(closed := true)), g, ChannelClosed)
  }

  function ApplyCancel(s: State, g: nat): State {
    var c := Gen(s, g).cancelOf;
    SetStage(SetGen(s, c, Gen(s, c).(cancelled := true)), g, Cancelled)
  }

  /** A step in which a waiter changes nothing but its own generation. */
  predicate IsLocal(w: WaiterStep) {
    !w.Send? && !w.Close? && !w.CancelContext?
  }

  function LocalMove(s: State, g: nat, w: WaiterStep): Generation {
    var gen := Gen(s, g);
    match w
    case ReadCancel => gen.(stage := CancelRead, cancelOf := s.cancel)
    case ReadClose => gen.(stage := InWait, closeOf := s.waitCh)
    case Reap => gen.(reaped := true)
    case WaitReturns(exit) => gen.(stage := Waited, exit := exit)
    case LoadFlag => gen.(stage := Decided, outcome := if Gen(s, gen.flagOf).killFlag then UserKilled else gen.exit)
    case ReadSend => gen.(stage := ChannelRead, sendOf := s.waitCh)
    case _ => gen
  }

  function WaiterApply(s: State, g: nat, w: WaiterStep): State {
    match w
    case Send => ApplySend(s, g)
    case Close => ApplyClose(s, g)
    case CancelContext => ApplyCancel(s, g)
    case _ => SetGen(s, g, LocalMove(s, g, w))
  }

  predicate Enabled(s: State, step: Step) {
    && !s.panicked
    && match step
       case LockStart(_) => s.lock.Free?
       case LockRestart(_) => s.lock.Free?
       case Holder(h) => HolderEnabled(s, h)
       case Waiter(g, w) => WaiterEnabled(s, g, w)
       case Receive(c) => c < |s.gens| && (Gen(s, c).channel.buffer != [] || Gen(s, c).channel.closed)
  }

  function Apply(s: State, step: Step): State {
    match step
    case LockStart(owner) => s.(lock := Held(owner, Starting))
    case LockRestart(owner) => s.(lock := Held(owner, Killing))
    case Holder(h) => HolderApply(s, h)
    case Waiter(g, w) => WaiterApply(s, g, w)
    case Receive(c) =>
      var ch := Gen(s, c).channel;
      if ch.buffer == [] then s else SetChannel(s, c, ch.(buffer := ch.buffer[1..]))
  }

  /** What a receiver gets: the buffered value, or the zero value nil of a closed channel. */
  function Received(s: State, c: nat): Outcome {
    if Gen(s, c).channel.buffer == [] then Clean else Gen(s, c).channel.buffer[0].outcome
  }

  /** The state after the steps, or None if one of them is not enabled. */
  function Run(s: State, steps: seq<Step>): (r: Option<State>)
    decreases |steps|
  {
    if steps == [] then Some(s)
    else
      var before := Run(s, steps[..|steps| - 1]);
      var step := steps[|steps| - 1];
      if before.Some? && Enabled(before.value, step) then Some(Apply(before.value, step)) else None
  }

  lemma {:induction false} RunConcat(s: State, a: seq<Step>, b: seq<Step>)
    requires Run(s, a).Some?
    ensures Run(s, a + b) == Run(Run(s, a).value, b)
    decreases |b|
  {
    if b == [] {
      assert a + b == a;
    } else {
      assert (a + b)[..|a + b| - 1] == a + b[..|b| - 1];
      RunConcat(s, a, b[..|b| - 1]);
    }
  }

  // ----- What every interleaving keeps

  /** The generation the Process is at, or is being moved to. */
  function Newest(s: State): int {
    |s.gens| - 1
  }

  /** Which generation a field points to while Restart replaces the six fields. */
  function FieldGen(s: State, position: nat): int {
    if s.lock.Held? && s.lock.at.Updating? && s.lock.at.done <= position then Newest(s) - 1 else Newest(s)
  }

  /** The fields are replaced together, in order, and only by the mutex holder. */
  predicate FieldsAgree(s: State) {
    && s.ctx == FieldGen(s, 0) && s.cancel == FieldGen(s, 1) && s.cmd == FieldGen(s, 2)
    && s.waitCh == FieldGen(s, 3) && s.userKilled == FieldGen(s, 4) && s.binName == FieldGen(s, 5)
    && (s.lock.Held? && s.lock.at.Updating? ==> s.lock.at.done <= 5)
  }

  /** What is true of generation g on its own in every interleaving: the story of
      the kill flag, that its waiter decides on ErrUserKilled or on what cmd.Wait
      returned, and that it sends to its own channel or a later one. */
  predicate KillStory(g: nat, gen: Generation) {
    && (gen.stage != NotSpawned ==> gen.started && gen.flagOf == g)
    && (gen.started ==> gen.flagOf == g)
    && (gen.reaped ==> gen.stage.AtLeast(InWait))
    && (gen.stage.AtLeast(Waited) ==> gen.reaped && gen.exit != UserKilled)
    && (gen.signalled ==> gen.killFlag)
    && (gen.killFlag ==> gen.killRun)
    && (gen.stage.AtLeast(Decided) ==>
          && (gen.outcome == UserKilled ==> gen.killFlag)
          && (gen.outcome != UserKilled ==> gen.outcome == gen.exit)
          && (gen.signalled ==> gen.outcome == UserKilled))
    && (gen.stage.AtLeast(ChannelRead) ==> g <= gen.sendOf)
  }

  /** What the position of the mutex holder says about the newest generation. */
  predicate HolderStory(gen: Generation, lock: Lock) {
    if lock.Free? then gen.started ==> gen.stage != NotSpawned
    else
      match lock.at
      case Killing => gen.started ==> gen.stage != NotSpawned
      case FlagStored => gen.killFlag && gen.stage != NotSpawned
      case Polling => gen.signalled && gen.stage != NotSpawned
      case Updating(_) => !gen.started
      case Starting => gen.started ==> gen.stage != NotSpawned
      case Forking => gen.started && gen.stage == NotSpawned
  }

  /** A generation that has been replaced was signalled and has a waiter. */
  predicate ReplacedStory(gen: Generation) {
    gen.signalled && gen.stage != NotSpawned
  }

  ghost predicate KillInv(s: State) {
    && s.gens != []
    && FieldsAgree(s)
    && (forall g :: 0 <= g < |s.gens| ==> KillStory(g, s.gens[g]))
    && (forall g :: 0 <= g < |s.gens| - 1 ==> ReplacedStory(s.gens[g]))
    && HolderStory(s.gens[|s.gens| - 1], s.lock)
    && (s.lock.Held? && s.lock.at.Updating? ==> |s.gens| >= 2)
  }

  lemma KillInvInitially()
    ensures KillInv(INITIAL)
  {
  }

  /** The holder's own moves that touch no generation. */
  lemma MoveHolder(s: State, lock: Lock)
    requires KillInv(s) && HolderStory(s.gens[|s.gens| - 1], lock)
    requires (s.lock.Held? && s.lock.at.Updating?) == (lock.Held? && lock.at.Updating?) == false
    ensures KillInv(s.(lock := lock))
  {
  }

  lemma SignalKeepsKillInv(s: State)
    requires KillInv(s) && AtPoint(s, FlagStored) && !Gen(s, s.cmd).reaped
    ensures KillInv(HolderApply(s, SignalDelivered))
  {
  }

  lemma StoreFlagKeepsKillInv(s: State)
    requires KillInv(s) && AtPoint(s, Killing) && Gen(s, s.cmd).started
    ensures KillInv(HolderApply(s, StoreFlag))
  {
    var gen := s.gens[s.cmd];
    var s1 := SetGen(s, s.cmd, gen.(killFlag := true));
    assert HolderApply(s, StoreFlag).gens == s.gens[s.cmd := gen.(killFlag := true, killRun := true)];
  }

  lemma PollExitedKeepsKillInv(s: State)
    requires KillInv(s) && AtPoint(s, Polling)
    ensures KillInv(HolderApply(s, PollExited))
  {
  }

  lemma UpdateKeepsFields(s: State)
    requires s.gens != [] && FieldsAgree(s) && s.lock.Held? && s.lock.at.Updating?
    ensures var t := UpdateOne(s, s.lock.at.done);
      && FieldsAgree(t) && t.gens == s.gens && t.lock.Held?
      && (t.lock.at.Updating? || t.lock.at == Starting)
  {
  }

  lemma UpdateKeepsKillInv(s: State)
    requires KillInv(s) && s.lock.Held? && s.lock.at.Updating?
    ensures KillInv(UpdateOne(s, s.lock.at.done))
  {
    UpdateKeepsFields(s);
    assert KillStory(|s.gens| - 1, s.gens[|s.gens| - 1]);
  }

  lemma StartKeepsKillInv(s: State)
    requires KillInv(s) && AtPoint(s, Starting) && !Gen(s, s.cmd).started
    ensures KillInv(HolderApply(s, CmdStarts))
  {
  }

  lemma SpawnKeepsKillInv(s: State)
    requires KillInv(s) && AtPoint(s, Forking)
    ensures KillInv(HolderApply(s, SpawnWaiter))
  {
  }

  lemma HolderKeepsKillInv(s: State, h: HolderStep)
    requires KillInv(s) && HolderEnabled(s, h)
    ensures KillInv(HolderApply(s, h))
  {
    match h {
      case StoreFlag => StoreFlagKeepsKillInv(s);
      case SignalDelivered => SignalKeepsKillInv(s);
      case PollExited => PollExitedKeepsKillInv(s);
      case NotStarted => MoveHolder(s, Free);
      case SignalFails => MoveHolder(s, Free);
      case PollFails => MoveHolder(s, Free);
      case CmdFails => MoveHolder(s, Free);
      case PollRunning =>
      case UpdateField => UpdateKeepsKillInv(s);
      case CmdStarts => StartKeepsKillInv(s);
      case SpawnWaiter => SpawnKeepsKillInv(s);
    }
  }

  /** Changes that the invariant does not look at. */
  lemma ChangeKeepsKillInv(s: State, c: nat, channel: Channel, cancelled: bool)
    requires KillInv(s)
    ensures KillInv(SetGen(s, c, Gen(s, c).(channel := channel, cancelled := cancelled)))
  {
  }

  /** A waiter that moves on by itself. */
  lemma MoveKeepsKillInv(s: State, g: nat, gen: Generation)
    requires KillInv(s) && g < |s.gens| && KillStory(g, gen)
    requires gen.started == s.gens[g].started && gen.signalled == s.gens[g].signalled
    requires gen.killFlag == s.gens[g].killFlag
    requires gen.stage != NotSpawned && s.gens[g].stage != NotSpawned
    ensures KillInv(SetGen(s, g, gen))
  {
  }

  lemma LocalMoveKeepsStory(s: State, g: nat, w: WaiterStep)
    requires WaiterEnabled(s, g, w) && IsLocal(w) && KillStory(g, s.gens[g])
    requires w == ReadSend ==> g <= s.waitCh
    ensures KillStory(g, LocalMove(s, g, w))
  {
  }

  /** The fields never point to a generation before that of a running waiter. */
  lemma FieldsAreNotOlder(s: State, g: nat)
    requires KillInv(s) && g < |s.gens| && s.gens[g].stage != NotSpawned
    ensures g <= s.waitCh
  {
    assert KillStory(g, s.gens[g]);
  }

  lemma LocalMoveKeepsKillInv(s: State, g: nat, w: WaiterStep)
    requires KillInv(s) && WaiterEnabled(s, g, w) && IsLocal(w)
    ensures KillInv(SetGen(s, g, LocalMove(s, g, w)))
  {
    assert KillStory(g, s.gens[g]);
    FieldsAreNotOlder(s, g);
    LocalMoveKeepsStory(s, g, w);
    MoveKeepsKillInv(s, g, LocalMove(s, g, w));
  }

  /** A waiter past its last read of a field only changes its stage. */
  lemma StageKeepsKillInv(s: State, g: nat, stage: Stage)
    requires KillInv(s) && g < |s.gens|
    requires s.gens[g].stage.AtLeast(ChannelRead) && stage.AtLeast(ChannelRead)
    ensures KillInv(SetStage(s, g, stage))
  {
    assert KillStory(g, s.gens[g]);
    MoveKeepsKillInv(s, g, s.gens[g].(stage := stage));
  }

  /** It may do so after a change to some channel or context. */
  lemma ChangeThenStageKeepsKillInv(s: State, c: nat, channel: Channel, cancelled: bool, g: nat, stage: Stage)
    requires KillInv(s) && g < |s.gens|
    requires s.gens[g].stage.AtLeast(ChannelRead) && stage.AtLeast(ChannelRead)
    ensures KillInv(SetStage(SetGen(s, c, Gen(s, c).(channel := channel, cancelled := cancelled)), g, stage))
  {
    ChangeKeepsKillInv(s, c, channel, cancelled);
    StageKeepsKillInv(SetGen(s, c, Gen(s, c).(channel := channel, cancelled := cancelled)), g, stage);
  }

  lemma PanicKeepsKillInv(s: State)
    requires KillInv(s)
    ensures KillInv(s.(panicked := true))
  {
  }

  lemma SendKeepsKillInv(s: State, g: nat)
    requires KillInv(s) && g < |s.gens| && s.gens[g].stage == ChannelRead
    ensures KillInv(ApplySend(s, g))
  {
    var c := Gen(s, g).sendOf;
    var ch := Gen(s, c).channel;
    var m := Message(g, Gen(s, g).outcome);
    PanicKeepsKillInv(s);
    ChangeThenStageKeepsKillInv(s, c, Channel(ch.buffer + [m], false, ch.sent + [m]), Gen(s, c).cancelled, g, Sent);
  }

  lemma CloseKeepsKillInv(s: State, g: nat)
    requires KillInv(s) && g < |s.gens| && s.gens[g].stage == Sent
    ensures KillInv(ApplyClose(s, g))
  {
    var c := Gen(s, g).closeOf;
    PanicKeepsKillInv(s);
    ChangeThenStageKeepsKillInv(s, c, Gen(s, c).channel.(closed := true), Gen(s, c).cancelled, g, ChannelClosed);
  }

  lemma CancelKeepsKillInv(s: State, g: nat)
    requires KillInv(s) && g < |s.gens| && s.gens[g].stage == ChannelClosed
    ensures KillInv(ApplyCancel(s, g))
  {
    var c := Gen(s, g).cancelOf;
    ChangeThenStageKeepsKillInv(s, c, Gen(s, c).channel, true, g, Cancelled);
  }

  lemma StepKeepsKillInv(s: State, step: Step)
    requires KillInv(s) && Enabled(s, step)
    ensures KillInv(Apply(s, step))
  {
    match step {
      case Holder(h) => HolderKeepsKillInv(s, h);
      case Waiter(g, w) =>
        if w.Send? { SendKeepsKillInv(s, g); }
        else if w.Close? { CloseKeepsKillInv(s, g); }
        else if w.CancelContext? { CancelKeepsKillInv(s, g); }
        else { LocalMoveKeepsKillInv(s, g, w); }
      case Receive(c) =>
        var ch := Gen(s, c).channel;
        if ch.buffer != [] {
          ChangeKeepsKillInv(s, c, ch.(buffer := ch.buffer[1..]), Gen(s, c).cancelled);
        }
      case LockStart(_) =>
      case LockRestart(_) =>
    }
  }

  /** In every interleaving: no assumption about isProcExited is needed. */
  lemma {:induction false} RunsKeepKillInv(s: State, steps: seq<Step>)
    requires KillInv(s) && Run(s, steps).Some?
    ensures KillInv(Run(s, steps).value)
    decreases |steps|
  {
    if steps != [] {
      RunsKeepKillInv(s, steps[..|steps| - 1]);
      StepKeepsKillInv(Run(s, steps[..|steps| - 1]).value, steps[|steps| - 1]);
    }
  }

  // ----- Nothing that has happened to a generation is undone

  predicate GenLater(a: Generation, b: Generation) {
    && (a.started ==> b.started)
    && (a.killFlag ==> b.killFlag)
    && (a.killRun ==> b.killRun)
    && (a.signalled ==> b.signalled)
    && (a.reaped ==> b.reaped)
    && b.stage.AtLeast(a.stage)
    && (a.stage.AtLeast(Decided) ==> b.outcome == a.outcome)
    && a.channel.sent <= b.channel.sent
    && (a.channel.closed ==> b.channel.closed)
  }

  ghost predicate Later(s: State, t: State) {
    && |s.gens| <= |t.gens|
    && forall g :: 0 <= g < |s.gens| ==> GenLater(s.gens[g], t.gens[g])
  }

  lemma SetGenIsLater(s: State, g: nat, gen: Generation)
    requires GenLater(Gen(s, g), gen)
    ensures Later(s, SetGen(s, g, gen))
  {
  }

  lemma LaterTransitive(s: State, t: State, u: State)
    requires Later(s, t) && Later(t, u)
    ensures Later(s, u)
  {
    forall g | 0 <= g < |s.gens| ensures GenLater(s.gens[g], u.gens[g]) {
      assert GenLater(s.gens[g], t.gens[g]) && GenLater(t.gens[g], u.gens[g]);
    }
  }

  lemma StoreFlagIsLater(s: State)
    requires KillInv(s) && AtPoint(s, Killing)
    ensures Later(s, HolderApply(s, StoreFlag))
  {
    var gen := s.gens[s.cmd].(killFlag := true, killRun := true);
    SetGenIsLater(s, s.cmd, gen);
    assert HolderApply(s, StoreFlag).gens == SetGen(s, s.cmd, gen).gens;
  }

  /** The holder's steps that touch no generation. */
  predicate TouchesNoGeneration(h: HolderStep) {
    h != StoreFlag && h != SignalDelivered && h != PollExited && h != CmdStarts && h != SpawnWaiter
  }

  lemma QuietHolderKeepsGens(s: State, h: HolderStep)
    requires TouchesNoGeneration(h)
    ensures HolderApply(s, h).gens == s.gens
  {
  }

  lemma SameGensIsLater(s: State, t: State)
    requires t.gens == s.gens
    ensures Later(s, t)
  {
  }

  lemma SignalIsLater(s: State)
    requires KillInv(s)
    ensures Later(s, HolderApply(s, SignalDelivered))
  {
    var gen := Gen(s, s.cmd).(signalled := true);
    SetGenIsLater(s, s.cmd, gen);
    SameGensIsLater(SetGen(s, s.cmd, gen), HolderApply(s, SignalDelivered));
  }

  lemma ExitedIsLater(s: State)
    ensures Later(s, HolderApply(s, PollExited))
  {
    assert HolderApply(s, PollExited).gens == s.gens + [FRESH];
  }

  lemma StartIsLater(s: State)
    requires KillInv(s) && AtPoint(s, Starting)
    ensures Later(s, HolderApply(s, CmdStarts))
  {
    var gen := Gen(s, s.cmd).(started := true, flagOf := s.userKilled);
    SetGenIsLater(s, s.cmd, gen);
    SameGensIsLater(SetGen(s, s.cmd, gen), HolderApply(s, CmdStarts));
  }

  lemma SpawnIsLater(s: State)
    requires KillInv(s) && AtPoint(s, Forking)
    ensures Later(s, HolderApply(s, SpawnWaiter))
  {
    var gen := Gen(s, s.cmd).(stage := Spawned);
    SetGenIsLater(s, s.cmd, gen);
    SameGensIsLater(SetGen(s, s.cmd, gen), HolderApply(s, SpawnWaiter));
  }

  lemma HolderIsLater(s: State, h: HolderStep)
    requires KillInv(s) && HolderEnabled(s, h)
    ensures Later(s, HolderApply(s, h))
  {
    match h {
      case StoreFlag => StoreFlagIsLater(s);
      case SignalDelivered => SignalIsLater(s);
      case PollExited => ExitedIsLater(s);
      case CmdStarts => StartIsLater(s);
      case SpawnWaiter => SpawnIsLater(s);
      case _ =>
        QuietHolderKeepsGens(s, h);
        SameGensIsLater(s, HolderApply(s, h));
    }
  }

  lemma LocalMoveIsLater(s: State, g: nat, w: WaiterStep)
    requires WaiterEnabled(s, g, w) && IsLocal(w)
    ensures Later(s, SetGen(s, g, LocalMove(s, g, w)))
  {
    LocalMoveIsGenLater(s, g, w);
    SetGenIsLater(s, g, LocalMove(s, g, w));
  }

  lemma LocalMoveIsGenLater(s: State, g: nat, w: WaiterStep)
    requires WaiterEnabled(s, g, w) && IsLocal(w)
    ensures GenLater(Gen(s, g), LocalMove(s, g, w))
  {
  }

  /** Appending to a channel, or closing it, and then moving on a waiter. */
  lemma ChannelThenStageIsLater(s: State, c: nat, gen: Generation, g: nat, stage: Stage)
    requires GenLater(Gen(s, c), gen) && gen.stage == Gen(s, c).stage
    requires g < |s.gens| && s.gens[g].stage.AtLeast(Decided) && stage.AtLeast(s.gens[g].stage)
    ensures Later(s, SetStage(SetGen(s, c, gen), g, stage))
  {
    var s1 := SetGen(s, c, gen);
    SetGenIsLater(s, c, gen);
    SetGenIsLater(s1, g, Gen(s1, g).(stage := stage));
    LaterTransitive(s, s1, SetStage(s1, g, stage));
  }

  lemma WaiterIsLater(s: State, g: nat, w: WaiterStep)
    requires WaiterEnabled(s, g, w)
    ensures Later(s, WaiterApply(s, g, w))
  {
    var gen := Gen(s, g);
    if w.Send? {
      var ch := Gen(s, gen.sendOf).channel;
      var m := Message(g, gen.outcome);
      if !ch.closed {
        ChannelThenStageIsLater(s, gen.sendOf,
          Gen(s, gen.sendOf).(channel := Channel(ch.buffer + [m], false, ch.sent + [m])), g, Sent);
      }
    } else if w.Close? {
      var owner := Gen(s, gen.closeOf);
      ChannelThenStageIsLater(s, gen.closeOf, owner.(channel := owner.channel.(closed := true)), g, ChannelClosed);
    } else if w.CancelContext? {
      ChannelThenStageIsLater(s, gen.cancelOf, Gen(s, gen.cancelOf).(cancelled := true), g, Cancelled);
    } else {
      LocalMoveIsLater(s, g, w);
    }
  }

  lemma StepIsLater(s: State, step: Step)
    requires KillInv(s) && Enabled(s, step)
    ensures Later(s, Apply(s, step))
  {
    match step {
      case Holder(h) => HolderIsLater(s, h);
      case Waiter(g, w) => WaiterIsLater(s, g, w);
      case Receive(c) => SetGenIsLater(s, c, Gen(Apply(s, step), c));
      case LockStart(_) =>
      case LockRestart(_) =>
    }
  }

  /** Along every run kill flags only go from 0 to 1, waiters only move on, decided
      outcomes stay decided, and nothing that was sent is unsent. */
  lemma {:induction false} RunsOnlyAdd(s: State, steps: seq<Step>)
    requires KillInv(s) && Run(s, steps).Some?
    ensures Later(s, Run(s, steps).value)
    decreases |steps|
  {
    if steps != [] {
      var front := steps[..|steps| - 1];
      RunsOnlyAdd(s, front);
      RunsKeepKillInv(s, front);
      StepIsLater(Run(s, front).value, steps[|steps| - 1]);
    }
  }

  // ----- Which messages can be in a channel, whoever's channel it is

  /** A value in channel c: sent by the waiter of that generation or an earlier one,
      which has said so. */
  predicate MessageOk(s: State, c: nat, m: Message) {
    && m.from <= c < |s.gens|
    && s.gens[m.from].stage.AtLeast(Sent)
    && m.outcome == s.gens[m.from].outcome
  }

  ghost predicate AllOk(s: State, c: nat, messages: seq<Message>) {
    forall i :: 0 <= i < |messages| ==> MessageOk(s, c, messages[i])
  }

  /** What a generation's channel has been sent, [] if there is no such generation. */
  function SentOn(s: State, c: nat): seq<Message> {
    Gen(s, c).channel.sent
  }

  /** What can be received from it. */
  function BufferOf(s: State, c: nat): seq<Message> {
    Gen(s, c).channel.buffer
  }

  ghost predicate MessagesInv(s: State) {
    forall c: nat :: AllOk(s, c, SentOn(s, c)) && AllOk(s, c, BufferOf(s, c))
  }

  lemma LaterKeepsOk(s: State, t: State, c: nat, messages: seq<Message>)
    requires Later(s, t) && AllOk(s, c, messages)
    ensures AllOk(t, c, messages)
  {
    forall i | 0 <= i < |messages| ensures MessageOk(t, c, messages[i]) {
      var from := messages[i].from;
      assert MessageOk(s, c, messages[i]);
      assert GenLater(s.gens[from], t.gens[from]);
    }
  }

  predicate SameOrShorter(before: seq<Message>, after: seq<Message>) {
    after == before || (before != [] && after == before[1..])
  }

  /** A step that sends nothing, and takes at most the first value out of a buffer. */
  lemma LaterKeepsMessages(s: State, t: State)
    requires MessagesInv(s) && Later(s, t)
    requires forall c: nat :: SentOn(t, c) == SentOn(s, c)
    requires forall c: nat :: SameOrShorter(BufferOf(s, c), BufferOf(t, c))
    ensures MessagesInv(t)
  {
    forall c: nat ensures AllOk(t, c, SentOn(t, c)) && AllOk(t, c, BufferOf(t, c)) {
      assert AllOk(s, c, SentOn(s, c)) && AllOk(s, c, BufferOf(s, c));
      LaterKeepsOk(s, t, c, SentOn(t, c));
      LaterKeepsOk(s, t, c, BufferOf(s, c));
    }
  }

  /** A send appends the sender's decision to one channel. */
  lemma SendAppends(s: State, g: nat)
    requires g < |s.gens| && s.gens[g].stage == ChannelRead
    requires !Gen(s, s.gens[g].sendOf).channel.closed
    ensures var t := ApplySend(s, g);
      && t.lock == s.lock && |t.gens| == |s.gens| && t.gens[g].stage == Sent && t.gens[g].outcome == s.gens[g].outcome
      && forall c: nat ::
           var more := if c == s.gens[g].sendOf && c < |s.gens| then [Message(g, s.gens[g].outcome)] else [];
           SentOn(t, c) == SentOn(s, c) + more && BufferOf(t, c) == BufferOf(s, c) + more
  {
  }

  lemma AppendKeepsOk(s: State, c: nat, messages: seq<Message>, more: seq<Message>)
    requires AllOk(s, c, messages) && AllOk(s, c, more)
    ensures AllOk(s, c, messages + more)
  {
  }

  lemma SendKeepsMessages(s: State, g: nat)
    requires KillInv(s) && MessagesInv(s) && WaiterEnabled(s, g, Send)
    ensures MessagesInv(ApplySend(s, g))
  {
    var t := ApplySend(s, g);
    var to := s.gens[g].sendOf;
    if Gen(s, to).channel.closed {
      SameGensIsLater(s, t);
      LaterKeepsMessages(s, t);
      return;
    }
    WaiterIsLater(s, g, Send);
    SendAppends(s, g);
    assert KillStory(g, s.gens[g]);
    forall c: nat ensures AllOk(t, c, SentOn(t, c)) && AllOk(t, c, BufferOf(t, c)) {
      var more := if c == to && c < |s.gens| then [Message(g, s.gens[g].outcome)] else [];
      assert AllOk(t, c, more);
      assert AllOk(s, c, SentOn(s, c)) && AllOk(s, c, BufferOf(s, c));
      LaterKeepsOk(s, t, c, SentOn(s, c));
      LaterKeepsOk(s, t, c, BufferOf(s, c));
      AppendKeepsOk(t, c, SentOn(s, c), more);
      AppendKeepsOk(t, c, BufferOf(s, c), more);
    }
  }

  ghost predicate SameTraffic(s: State, t: State) {
    forall c: nat :: SentOn(t, c) == SentOn(s, c) && BufferOf(t, c) == BufferOf(s, c)
  }

  lemma SetGenSendsNothing(s: State, g: nat, gen: Generation)
    requires gen.channel.sent == SentOn(s, g) && gen.channel.buffer == BufferOf(s, g)
    ensures SameTraffic(s, SetGen(s, g, gen))
  {
  }

  lemma SameGensSendNothing(s: State, t: State)
    requires t.gens == s.gens
    ensures SameTraffic(s, t)
  {
  }

  lemma HolderSendsNothing(s: State, h: HolderStep)
    ensures SameTraffic(s, HolderApply(s, h))
  {
    match h {
      case StoreFlag => StoreFlagSendsNothing(s);
      case SignalDelivered =>
        SetGenSendsNothing(s, s.cmd, Gen(s, s.cmd).(signalled := true));
      case PollExited => ExitedSendsNothing(s);
      case CmdStarts =>
        SetGenSendsNothing(s, s.cmd, Gen(s, s.cmd).(started := true, flagOf := s.userKilled));
      case SpawnWaiter =>
        SetGenSendsNothing(s, s.cmd, Gen(s, s.cmd).(stage := Spawned));
      case _ =>
        QuietHolderKeepsGens(s, h);
        SameGensSendNothing(s, HolderApply(s, h));
    }
  }

  lemma StoreFlagSendsNothing(s: State)
    ensures SameTraffic(s, HolderApply(s, StoreFlag))
  {
    var s1 := SetGen(s, s.userKilled, Gen(s, s.userKilled).(killFlag := true));
    SetGenSendsNothing(s, s.userKilled, Gen(s, s.userKilled).(killFlag := true));
    SetGenSendsNothing(s1, s.cmd, Gen(s1, s.cmd).(killRun := true));
  }

  lemma ExitedSendsNothing(s: State)
    ensures SameTraffic(s, HolderApply(s, PollExited))
  {
    assert HolderApply(s, PollExited).gens == s.gens + [FRESH];
  }

  lemma TwoChangesSendNothing(s: State, c: nat, gen: Generation, g: nat, stage: Stage)
    requires gen.channel.sent == SentOn(s, c) && gen.channel.buffer == BufferOf(s, c)
    ensures SameTraffic(s, SetStage(SetGen(s, c, gen), g, stage))
  {
    var s1 := SetGen(s, c, gen);
    SetGenSendsNothing(s, c, gen);
    SetGenSendsNothing(s1, g, Gen(s1, g).(stage := stage));
  }

  lemma WaiterSendsNothingElse(s: State, g: nat, w: WaiterStep)
    requires !w.Send?
    ensures SameTraffic(s, WaiterApply(s, g, w))
  {
    if w.Close? {
      var c := Gen(s, g).closeOf;
      TwoChangesSendNothing(s, c, Gen(s, c).(channel := Gen(s, c).channel.(closed := true)), g, ChannelClosed);
    } else if w.CancelContext? {
      var c := Gen(s, g).cancelOf;
      TwoChangesSendNothing(s, c, Gen(s, c).(cancelled := true), g, Cancelled);
    } else {
      SetGenSendsNothing(s, g, LocalMove(s, g, w));
    }
  }

  lemma ReceiveTakesFirst(s: State, c: nat)
    ensures var t := Apply(s, Receive(c));
      forall d: nat :: SentOn(t, d) == SentOn(s, d) && SameOrShorter(BufferOf(s, d), BufferOf(t, d))
  {
  }

  lemma StepKeepsMessages(s: State, step: Step)
    requires KillInv(s) && MessagesInv(s) && Enabled(s, step)
    ensures MessagesInv(Apply(s, step))
  {
    if step.Waiter? && step.w.Send? {
      SendKeepsMessages(s, step.g);
      return;
    }
    match step {
      case Holder(h) => HolderSendsNothing(s, h);
      case Waiter(g, w) => WaiterSendsNothingElse(s, g, w);
      case Receive(c) => ReceiveTakesFirst(s, c);
      case LockStart(_) => SameGensSendNothing(s, Apply(s, step));
      case LockRestart(_) => SameGensSendNothing(s, Apply(s, step));
    }
    StepIsLater(s, step);
    LaterKeepsMessages(s, Apply(s, step));
  }

  lemma {:induction false} RunsKeepMessages(s: State, steps: seq<Step>)
    requires KillInv(s) && MessagesInv(s) && Run(s, steps).Some?
    ensures MessagesInv(Run(s, steps).value)
    decreases |steps|
  {
    if steps != [] {
      var front := steps[..|steps| - 1];
      RunsKeepMessages(s, front);
      RunsKeepKillInv(s, front);
      StepKeepsMessages(Run(s, front).value, steps[|steps| - 1]);
    }
  }

  /** What a value says about its sender, and what its channel says about it. */
  predicate Truthful(s: State, c: nat, m: Message) {
    && m.from < |s.gens|
    && (m.outcome == UserKilled ==> s.gens[m.from].killRun)
    && (s.gens[m.from].signalled ==> m.outcome == UserKilled)
    && (m.outcome != UserKilled ==> m.outcome == s.gens[m.from].exit)
    && (m.from == c || (m.from < c && m.outcome == UserKilled))
  }

  lemma OkIsTruthful(s: State, c: nat, m: Message)
    requires KillInv(s) && MessageOk(s, c, m)
    ensures Truthful(s, c, m)
  {
    assert KillStory(m.from, s.gens[m.from]);
    assert m.from < |s.gens| - 1 ==> ReplacedStory(s.gens[m.from]);
  }

  /** The kill flag does its job in every interleaving, whatever isProcExited answers
      and whatever channel a waiter's value ends up in: the value is ErrUserKilled
      only if kill ran on that waiter's generation, and nothing else if kill's signal
      was delivered to it; otherwise it is just what cmd.Wait returned to that
      waiter. And a value in a channel is from the waiter of the
      channel's own generation, or it is ErrUserKilled from an earlier one. */
  lemma KillOutcomes(steps: seq<Step>)
    requires Run(INITIAL, steps).Some?
    ensures var s := Run(INITIAL, steps).value;
      forall c: nat, m :: m in SentOn(s, c) || m in BufferOf(s, c) ==> Truthful(s, c, m)
  {
    KillInvInitially();
    RunsKeepKillInv(INITIAL, steps);
    RunsKeepMessages(INITIAL, steps);
    var s := Run(INITIAL, steps).value;
    forall c: nat, m | m in SentOn(s, c) || m in BufferOf(s, c) ensures Truthful(s, c, m) {
      assert AllOk(s, c, SentOn(s, c)) && AllOk(s, c, BufferOf(s, c));
      OkIsTruthful(s, c, m);
    }
  }

  /** Only the holder of the mutex adds generations or delivers signals. */
  ghost predicate SameSignals(s: State, t: State) {
    |t.gens| == |s.gens| && forall c: nat :: Gen(t, c).signalled == Gen(s, c).signalled
  }

  lemma SetGenSignalsNothing(s: State, g: nat, gen: Generation)
    requires gen.signalled == Gen(s, g).signalled
    ensures SameSignals(s, SetGen(s, g, gen))
  {
  }

  lemma TwoChangesSignalNothing(s: State, c: nat, gen: Generation, g: nat, stage: Stage)
    requires gen.signalled == Gen(s, c).signalled
    ensures SameSignals(s, SetStage(SetGen(s, c, gen), g, stage))
  {
    var s1 := SetGen(s, c, gen);
    SetGenSignalsNothing(s, c, gen);
    SetGenSignalsNothing(s1, g, Gen(s1, g).(stage := stage));
  }

  lemma WaiterSignalsNothing(s: State, g: nat, w: WaiterStep)
    ensures SameSignals(s, WaiterApply(s, g, w))
  {
    var gen := Gen(s, g);
    if w.Send? {
      var to := Gen(s, gen.sendOf);
      var m := Message(g, gen.outcome);
      TwoChangesSignalNothing(s, gen.sendOf,
        to.(channel := Channel(to.channel.buffer + [m], false, to.channel.sent + [m])), g, Sent);
    } else if w.Close? {
      var owner := Gen(s, gen.closeOf);
      TwoChangesSignalNothing(s, gen.closeOf, owner.(channel := owner.channel.(closed := true)), g, ChannelClosed);
    } else if w.CancelContext? {
      TwoChangesSignalNothing(s, gen.cancelOf, Gen(s, gen.cancelOf).(cancelled := true), g, Cancelled);
    } else {
      SetGenSignalsNothing(s, g, LocalMove(s, g, w));
    }
  }

  lemma ReapedUnsignalledStays(s: State, step: Step)
    requires KillInv(s) && Enabled(s, step)
    requires Gen(s, |s.gens| - 1).reaped && !Gen(s, |s.gens| - 1).signalled
    ensures var t := Apply(s, step);
      |t.gens| == |s.gens| && Gen(t, |s.gens| - 1).reaped && !Gen(t, |s.gens| - 1).signalled
  {
    var last := |s.gens| - 1;
    StepIsLater(s, step);
    assert GenLater(s.gens[last], Apply(s, step).gens[last]);
    assert KillStory(last, s.gens[last]);
    if step.Waiter? {
      WaiterSignalsNothing(s, step.g, step.w);
    }
  }

  /** Once the newest process is reaped without kill's signal having been
      delivered, no Restart ever gets past kill: the generation is the last one. */
  lemma {:induction false} ReapedUnsignalledIsFinal(s: State, steps: seq<Step>)
    requires KillInv(s) && Run(s, steps).Some?
    requires Gen(s, |s.gens| - 1).reaped && !Gen(s, |s.gens| - 1).signalled
    ensures var t := Run(s, steps).value;
      |t.gens| == |s.gens| && Gen(t, |s.gens| - 1).reaped && !Gen(t, |s.gens| - 1).signalled
    decreases |steps|
  {
    if steps != [] {
      var front := steps[..|steps| - 1];
      ReapedUnsignalledIsFinal(s, front);
      RunsKeepKillInv(s, front);
      ReapedUnsignalledStays(Run(s, front).value, steps[|steps| - 1]);
    }
  }
}
