/**
 The FairMQ device state machine with its worker thread. Callers of `ChangeState` go through one
 mutex, write `fState`, and then wait for the worker before posting the next handler; the worker
 picks posts up, runs them, and signals the end of a handler through `ChangeState` itself. Every
 stretch under a mutex is one atomic action.
 */
module DeviceMachine {
  import opened Wrappers

  datatype St =
    | Idle | InitializingDevice | DeviceReady | InitializingTask | Ready
    | Running | Paused | ResettingTask | ResettingDevice | Exiting
    | Error

  datatype Event =
    | InitDevice | InternalDeviceReady | InitTask | InternalReady | Run | Pause | Stop
    | ResetTask | ResetDevice | InternalIdle | End | ErrorFound

  datatype Handler = InitWrapper | InitTaskWrapper | RunWrapper | PauseWrapper | ResetTaskWrapper | ResetWrapper

  /** DefaultFct posting a handler, AutomaticFct, StopFct, InternalStopFct and ExitingFct. */
  datatype Fct = Post(h: Handler) | Automatic | StopAndWait | InternalStop | Exit

  datatype Row = Row(target: St, fct: Fct)

  /** The regular region of the transition table; the error region is the flag `error`. */
  function Table(s: St, e: Event): Option<Row> {
    match (s, e)
    case (Idle, InitDevice) => Some(Row(InitializingDevice, Post(InitWrapper)))
    case (Idle, End) => Some(Row(Exiting, Exit))
    case (InitializingDevice, InternalDeviceReady) => Some(Row(DeviceReady, Automatic))
    case (DeviceReady, InitTask) => Some(Row(InitializingTask, Post(InitTaskWrapper)))
    case (DeviceReady, ResetDevice) => Some(Row(ResettingDevice, Post(ResetWrapper)))
    case (InitializingTask, InternalReady) => Some(Row(Ready, Automatic))
    case (Ready, Run) => Some(Row(Running, Post(RunWrapper)))
    case (Ready, ResetTask) => Some(Row(ResettingTask, Post(ResetTaskWrapper)))
    case (Running, Pause) => Some(Row(Paused, Post(PauseWrapper)))
    case (Running, Stop) => Some(Row(Ready, StopAndWait))
    case (Running, InternalReady) => Some(Row(Ready, InternalStop))
    case (Paused, Run) => Some(Row(Running, Post(RunWrapper)))
    case (ResettingTask, InternalDeviceReady) => Some(Row(DeviceReady, Automatic))
    case (ResettingDevice, InternalIdle) => Some(Row(Idle, Automatic))
    case _ => None
  }

  predicate Internal(e: Event) {
    e.InternalDeviceReady? || e.InternalReady? || e.InternalIdle?
  }

  /** The state a handler is posted for. */
  function StateOf(h: Handler): St {
    match h
    case InitWrapper => InitializingDevice
    case InitTaskWrapper => InitializingTask
    case RunWrapper => Running
    case PauseWrapper => Paused
    case ResetTaskWrapper => ResettingTask
    case ResetWrapper => ResettingDevice
  }

  /** The event a handler ends with; RunWrapper sends its one only if the state still is RUNNING. */
  function SignalOf(h: Handler): Option<Event> {
    match h
    case InitWrapper => Some(InternalDeviceReady)
    case InitTaskWrapper => Some(InternalReady)
    case RunWrapper => Some(InternalReady)
    case PauseWrapper => None
    case ResetTaskWrapper => Some(InternalDeviceReady)
    case ResetWrapper => Some(InternalIdle)
  }

  predicate OneShot(h: Handler) {
    h != RunWrapper && h != PauseWrapper
  }

  predicate OneShotState(s: St) {
    s in {InitializingDevice, InitializingTask, ResettingTask, ResettingDevice}
  }

  datatype Phase = Body | Signalling | Ended

  /** Armed: `fWorkActive` is set, `fWork` not yet called. Failed: an exception was caught. */
  datatype Worker = Free | Armed | Busy(post: nat, h: Handler, phase: Phase) | Reporting | Failed | Gone

  /** The caller inside `ChangeState` that has written `fState` and not yet finished its action. */
  datatype Caller = NoCall | Call(e: Event, row: Row)

  datatype Work = NoWork | Work(post: nat, h: Handler)

  /** `posts` and `starts` are history: the handlers posted, and which post each execution ran. */
  datatype State = State(
    region: St, error: bool, fState: St, caller: Caller,
    fWork: Work, fWorkActive: bool, fWorkAvailable: bool, fWorkerTerminated: bool,
    worker: Worker, posts: seq<Handler>, starts: seq<nat>)

  datatype Action =
    | Request(e: Event)  // a caller takes the mutex with an external event
    | Finish             // the caller gets past its wait and leaves
    | Wake               // the worker finds work, or the order to leave
    | Begin              // the worker calls fWork
    | CheckRunning       // RunWrapper tests the current state
    | EndPause           // PauseWrapper returns
    | Signal             // the handler gets the mutex for its own event
    | Complete           // the worker clears the flags
    | Report             // the worker calls the state change callbacks
    | Throw              // the handler or a state change callback throws; the flags are cleared
    | Fail               // the dying worker reports the error

  const INITIAL: State := State(Idle, false, Idle, NoCall, NoWork, false, false, false, Free, [], [])

  /** Once in the error state, which terminates the machine, every event is ignored. */
  function Requested(s: State, e: Event): State
    requires s.caller.NoCall? && !Internal(e)
  {
    if s.error then s
    else if e.ErrorFound? then s.(error := true, fState := Error)
    else match Table(s.region, e)
      case None => s
      case Some(row) => s.(fState := row.target, caller := Call(e, row))
  }

  function Finished(s: State): State
    requires s.caller.Call?
  {
    var row := s.caller.row;
    var left := s.(region := row.target, caller := NoCall);
    match row.fct
    case Post(h) =>
      if s.fWorkActive then s
      else left.(fWorkAvailable := true, fWork := Work(|s.posts|, h), posts := s.posts + [h])
    case StopAndWait => if s.fWorkActive then s else left
    case Exit => left.(fWorkerTerminated := true)
    case _ => left
  }

  function Signalled(s: State): State
    requires s.worker.Busy? && SignalOf(s.worker.h).Some?
  {
    var ended := s.(worker := s.worker.(phase := Ended));
    if s.error then ended
    else match Table(s.region, SignalOf(s.worker.h).value)
      case None => ended
      case Some(row) => ended.(region := row.target, fState := row.target)
  }

  /** One atomic action; one that is not enabled leaves the state alone. */
  function Do(s: State, a: Action): State {
    match a
    case Request(e) => if s.caller.NoCall? && !Internal(e) then Requested(s, e) else s
    case Finish => if s.caller.Call? then Finished(s) else s
    case Wake =>
      if s.worker != Free then s
      else if s.fWorkerTerminated then s.(worker := Gone)
      else if s.fWorkAvailable then s.(worker := Armed, fWorkActive := true)
      else s
    case Begin =>
      if s.worker == Armed && s.fWork.Work?
      then s.(worker := Busy(s.fWork.post, s.fWork.h, Body), starts := s.starts + [s.fWork.post]) else s
    case CheckRunning =>
      if s.worker.Busy? && s.worker.h == RunWrapper && s.worker.phase == Body
      then s.(worker := s.worker.(phase := if s.fState == Running then Signalling else Ended)) else s
    case EndPause =>
      if s.worker.Busy? && s.worker.h == PauseWrapper then s.(worker := s.worker.(phase := Ended)) else s
    case Signal =>
      if && s.worker.Busy? && s.caller.NoCall? && SignalOf(s.worker.h).Some?
         && s.worker.phase == (if s.worker.h == RunWrapper then Signalling else Body)
      then Signalled(s) else s
    case Complete =>
      if s.worker.Busy? && s.worker.phase == Ended
      then s.(worker := Reporting, fWorkActive := false, fWorkAvailable := false) else s
    case Report => if s.worker == Reporting then s.(worker := Free) else s
    case Throw =>
      if s.worker.Busy? || s.worker == Reporting
      then s.(worker := Failed, fWorkActive := false, fWorkAvailable := false) else s
    case Fail =>
      if s.worker == Failed && s.caller.NoCall? then Requested(s, ErrorFound).(worker := Gone) else s
  }

  function DoAll(s: State, actions: seq<Action>): State {
    if actions == [] then s
    else Do(DoAll(s, actions[..|actions| - 1]), actions[|actions| - 1])
  }

  function Reached(actions: seq<Action>): State {
    DoAll(INITIAL, actions)
  }

  // ----- the invariant: flags -----

  /** The flags belong to the worker, and `fWork` is always the latest post. */
  ghost predicate FlagsInv(s: State) {
    && (s.fWorkActive <==> s.worker.Armed? || s.worker.Busy?)
    && (s.fWorkActive ==> s.fWorkAvailable)
    && (s.fWorkAvailable ==> s.posts != [])
    && s.fWork == (if s.posts == [] then NoWork else Work(|s.posts| - 1, s.posts[|s.posts| - 1]))
    && (s.worker.Busy? ==> s.posts != [] && s.worker.post == |s.posts| - 1 && s.worker.h == s.posts[|s.posts| - 1])
  }

  // ----- the invariant: who can be where -----

  /** The regular states the machine can be in while a handler runs, by how far it has got. */
  function Regions(h: Handler, phase: Phase): set<St> {
    match (h, phase)
    case (InitWrapper, Ended) => {DeviceReady}
    case (InitTaskWrapper, Ended) => {Ready}
    case (ResetTaskWrapper, Ended) => {DeviceReady}
    case (ResetWrapper, Ended) => {Idle, Exiting}
    case (RunWrapper, _) => {Running, Ready}
    case (PauseWrapper, _) => {Paused}
    case (_, _) => {StateOf(h)}
  }

  /** The states in which a post can be waiting for the worker. */
  function Waiting(h: Handler): set<St> {
    if h == RunWrapper then {Running, Ready} else {StateOf(h)}
  }

  ghost predicate PlaceInv(s: State) {
    && (s.error ==> s.caller.NoCall? && s.fState == Error)
    && (!s.error && s.caller.NoCall? ==> s.fState == s.region)
    && (s.caller.Call? ==>
          && Table(s.region, s.caller.e) == Some(s.caller.row) && !Internal(s.caller.e)
          && s.fState == s.caller.row.target)
    && s.region != Error
    && (s.fWorkerTerminated ==> s.region == Exiting)
    && (s.worker.Gone? ==> s.error || s.fWorkerTerminated)
    && (s.worker.Busy? && !s.error ==> s.region in Regions(s.worker.h, s.worker.phase))
    && (s.fWorkAvailable && !s.worker.Busy? && !s.error ==>
          s.posts != [] && s.region in Waiting(s.posts[|s.posts| - 1]))
    && (!s.error && OneShotState(s.region) && (s.worker.Free? || s.worker.Reporting?) ==> s.fWorkAvailable)
    && (!s.error && OneShotState(s.region) ==> s.posts != [] && StateOf(s.posts[|s.posts| - 1]) == s.region)
  }

  /** RunWrapper about to send its event has seen RUNNING: the state itself, or what a RUN caller has written. */
  ghost predicate SignallingInv(s: State) {
    s.worker.Busy? && s.worker.phase == Signalling ==>
      && s.worker.h == RunWrapper
      && (!s.error ==> s.region == Running || (s.region == Ready && s.caller.Call? && s.caller.e == Run))
  }

  /** RUNNING is only left without work by a caller that is on its way out of it. */
  ghost predicate RunningInv(s: State) {
    !s.error && s.region == Running && s.caller.NoCall? ==>
      && (s.worker.Free? || s.worker.Reporting? ==> s.fWorkAvailable)
      && (s.worker.Busy? ==> s.worker.phase != Ended)
  }

  // ----- the invariant: every post's fate -----

  /** A worker that has died, in error or stuck in the state whose handler it will not run. */
  ghost predicate Dead(s: State) {
    (s.worker.Failed? || s.worker.Gone?) && (s.error || OneShotState(s.region))
  }

  ghost predicate FateInv(s: State) {
    && (forall i | 0 <= i < |s.starts| :: s.starts[i] < |s.posts|)
    && (forall i, j | 0 <= i < j < |s.starts| :: s.starts[i] < s.starts[j])
    && (s.worker.Busy? ==> |s.posts| - 1 in s.starts)
    && (s.fWorkAvailable && !s.worker.Busy? ==> |s.posts| - 1 !in s.starts)
    && (forall i: nat | i < |s.posts| && OneShot(s.posts[i]) && i !in s.starts :: i == |s.posts| - 1 && (s.fWorkAvailable || Dead(s)))
  }

  ghost predicate Inv(s: State) {
    FlagsInv(s) && PlaceInv(s) && SignallingInv(s) && RunningInv(s) && FateInv(s)
  }

  lemma StepFlags(s: State, a: Action)
    requires FlagsInv(s)
    ensures FlagsInv(Do(s, a))
  {
  }

  lemma RequestPlace(s: State, e: Event)
    requires FlagsInv(s) && PlaceInv(s)
    ensures PlaceInv(Do(s, Request(e)))
  {
  }

  lemma FinishPlace(s: State)
    requires FlagsInv(s) && PlaceInv(s)
    ensures PlaceInv(Do(s, Finish))
  {
  }

  lemma SignalPlace(s: State)
    requires FlagsInv(s) && PlaceInv(s)
    ensures PlaceInv(Do(s, Signal))
  {
  }

  lemma StepPlace(s: State, a: Action)
    requires FlagsInv(s) && PlaceInv(s)
    ensures PlaceInv(Do(s, a))
  {
    match a
    case Request(e) => RequestPlace(s, e);
    case Finish => FinishPlace(s);
    case Signal => SignalPlace(s);
    case _ =>
  }

  lemma StepSignalling(s: State, a: Action)
    requires FlagsInv(s) && PlaceInv(s) && SignallingInv(s)
    ensures SignallingInv(Do(s, a))
  {
  }

  lemma StepRunning(s: State, a: Action)
    requires FlagsInv(s) && PlaceInv(s) && SignallingInv(s) && RunningInv(s)
    ensures RunningInv(Do(s, a))
  {
  }

  /** A post is only made when no one-shot post is still waiting. */
  lemma PostFate(s: State)
    requires FlagsInv(s) && PlaceInv(s) && FateInv(s)
    requires s.caller.Call? && s.caller.row.fct.Post? && !s.fWorkActive
    ensures FateInv(Finished(s))
  {
    var n := |s.posts|;
    assert !OneShotState(s.region);
    assert forall i: nat | i < n && OneShot(s.posts[i]) :: i in s.starts;
    var s' := Finished(s);
    assert forall i: nat | i < n :: s'.posts[i] == s.posts[i];
    assert n !in s.starts;
  }

  lemma OneMoreStart(starts: seq<nat>, n: nat)
    requires n !in starts && forall i | 0 <= i < |starts| :: starts[i] <= n
    requires forall i, j | 0 <= i < j < |starts| :: starts[i] < starts[j]
    ensures forall i, j | 0 <= i < j < |starts + [n]| :: (starts + [n])[i] < (starts + [n])[j]
    ensures n in starts + [n] && forall i | i in starts :: i in starts + [n]
  {
    assert forall i | 0 <= i < |starts| :: starts[i] in starts;
    assert (starts + [n])[|starts|] == n;
  }

  lemma BeginFate(s: State)
    requires FlagsInv(s) && PlaceInv(s) && FateInv(s) && s.worker.Armed? && s.fWork.Work?
    ensures FateInv(Do(s, Begin))
  {
    OneMoreStart(s.starts, |s.posts| - 1);
    assert Do(s, Begin).starts == s.starts + [|s.posts| - 1];
  }

  lemma FateFrame(s: State, s': State)
    requires FlagsInv(s) && FateInv(s) && s'.posts == s.posts && s'.starts == s.starts
    requires s'.worker.Busy? ==> s.worker.Busy?
    requires s'.fWorkAvailable && !s'.worker.Busy? ==> s.fWorkAvailable && !s.worker.Busy?
    requires s.fWorkAvailable && !s'.fWorkAvailable ==> s.worker.Busy? || Dead(s') || !OneShot(s.posts[|s.posts| - 1])
    requires Dead(s) ==> Dead(s')
    ensures FateInv(s')
  {
  }

  /** An action that makes no post and begins no execution. */
  predicate Neither(s: State, a: Action) {
    && !(a.Finish? && s.caller.Call? && s.caller.row.fct.Post? && !s.fWorkActive)
    && !(a.Begin? && s.worker.Armed? && s.fWork.Work?)
  }

  lemma NeitherInHistory(s: State, a: Action)
    requires Neither(s, a)
    ensures Do(s, a).posts == s.posts && Do(s, a).starts == s.starts
  {
  }

  lemma NeitherInWorker(s: State, a: Action)
    requires FlagsInv(s) && Neither(s, a)
    ensures Do(s, a).worker.Busy? ==> s.worker.Busy?
  {
  }

  lemma NeitherInFlags(s: State, a: Action)
    requires FlagsInv(s) && Neither(s, a)
    ensures Do(s, a).fWorkAvailable && !Do(s, a).worker.Busy? ==> s.fWorkAvailable && !s.worker.Busy?
  {
  }

  /** A one-shot post is only taken back by a worker that dies in the state of that post. */
  lemma OnlyTheDeadWithdraw(s: State, a: Action)
    requires FlagsInv(s) && PlaceInv(s)
    ensures var s' := Do(s, a);
            && (s.fWorkAvailable && !s'.fWorkAvailable ==> s.worker.Busy? || Dead(s') || !OneShot(s.posts[|s.posts| - 1]))
            && (Dead(s) ==> Dead(s'))
  {
  }

  lemma StepFate(s: State, a: Action)
    requires FlagsInv(s) && PlaceInv(s) && FateInv(s)
    ensures FateInv(Do(s, a))
  {
    if a.Finish? && s.caller.Call? && s.caller.row.fct.Post? && !s.fWorkActive {
      PostFate(s);
    } else if a.Begin? && s.worker.Armed? && s.fWork.Work? {
      BeginFate(s);
    } else {
      NeitherInHistory(s, a);
      NeitherInWorker(s, a);
      NeitherInFlags(s, a);
      OnlyTheDeadWithdraw(s, a);
      FateFrame(s, Do(s, a));
    }
  }

  lemma {:induction false} ReachedInv(actions: seq<Action>)
    ensures Inv(Reached(actions))
  {
    if actions != [] {
      var before, a := Reached(actions[..|actions| - 1]), actions[|actions| - 1];
      ReachedInv(actions[..|actions| - 1]);
      StepFlags(before, a);
      StepPlace(before, a);
      StepSignalling(before, a);
      StepRunning(before, a);
      StepFate(before, a);
    }
  }

  // ----- the handshake -----

  /**
   In every interleaving of callers and worker: active work is available work; what executes is
   the latest post and is not replaced by any action; and the flags are only cleared by the
   handler of the latest post, or by a worker that dies in its callbacks.
   */
  lemma HandshakeHolds(actions: seq<Action>, a: Action)
    ensures var s, s' := Reached(actions), Do(Reached(actions), a);
            && (s.fWorkActive ==> s.fWorkAvailable)
            && (s.fWorkActive ==> s'.fWork == s.fWork && s'.posts == s.posts)
            && (s'.starts != s.starts ==> s'.starts == s.starts + [|s.posts| - 1] && s'.worker.Busy? && s'.worker.post == |s.posts| - 1)
            && (s.fWorkAvailable && !s'.fWorkAvailable ==>
                  && s'.posts == s.posts
                  && ((s.worker.Busy? && s.worker.post == |s.posts| - 1) || (s.worker == Reporting && s'.worker == Failed)))
  {
    ReachedInv(actions);
  }

  /** The latest post is taken back by this action, and no execution of it has begun. */
  ghost predicate Withdraws(s: State, a: Action) {
    s.posts != [] && s.fWorkAvailable && !Do(s, a).fWorkAvailable && !Begun(s, |s.posts| - 1)
  }

  /** A post is taken back unexecuted exactly when a callback throws after the post was made. */
  lemma WithdrawnExactly(actions: seq<Action>, a: Action)
    ensures Withdraws(Reached(actions), a) <==>
              a == Throw && Reached(actions).worker == Reporting && Reached(actions).fWorkAvailable
  {
    ReachedInv(actions);
  }

  /** It does happen: INIT_TASK is posted while the callbacks hear of DEVICE_READY, and one of them throws. */
  lemma WithdrawnHappens() returns (actions: seq<Action>)
    ensures Withdraws(Reached(actions), Throw)
    ensures Reached(actions).region == InitializingTask && Reached(actions).posts == [InitWrapper, InitTaskWrapper]
  {
    actions := Begins([], InitDevice, InitWrapper);
    OneMore(actions, Signal, Reached(actions));
    actions := actions + [Signal];
    OneMore(actions, Complete, Reached(actions));
    actions := actions + [Complete];
    OneMore(actions, Request(InitTask), Reached(actions));
    actions := actions + [Request(InitTask)];
    OneMore(actions, Finish, Reached(actions));
    actions := actions + [Finish];
    assert Reached(actions).starts == [0];
  }

  // ----- handlers of accepted events -----

  ghost predicate Begun(s: State, post: nat) {
    post in s.starts
  }

  /**
   No post is run twice, only a RUN or PAUSE post can be overwritten before it is picked up, and
   any other waits for the worker as long as there is one.
   */
  lemma HandlersRunAtMostOnce(actions: seq<Action>)
    ensures var s := Reached(actions);
            && (forall i, j | 0 <= i < j < |s.starts| :: s.starts[i] != s.starts[j])
            && (forall i: nat | i + 1 < |s.posts| && !Begun(s, i) :: s.posts[i] == RunWrapper || s.posts[i] == PauseWrapper)
            && (forall i: nat | i < |s.posts| && OneShot(s.posts[i]) && !Begun(s, i) ::
                  i == |s.posts| - 1 && (s.fWorkAvailable || s.worker.Failed? || s.worker.Gone?))
  {
    ReachedInv(actions);
  }

  /** Absent an error, the machine leaves such a state only after the handler posted for it has begun. */
  lemma NotLeftBeforeHandlerBegan(actions: seq<Action>, a: Action)
    requires var s := Reached(actions); OneShotState(s.region) && !s.error && Do(s, a).region != s.region
    ensures var s := Reached(actions);
            && s.posts != [] && StateOf(s.posts[|s.posts| - 1]) == s.region
            && Begun(s, |s.posts| - 1)
  {
    ReachedInv(actions);
  }

  // ----- the machine is at most one caller ahead of the worker -----

  /** What `fState` can be while a handler runs. */
  function Visible(h: Handler): set<St> {
    match h
    case InitWrapper => {InitializingDevice, DeviceReady, InitializingTask, ResettingDevice, Error}
    case InitTaskWrapper => {InitializingTask, Ready, Running, ResettingTask, Error}
    case RunWrapper => {Running, Ready, Paused, ResettingTask, Error}
    case PauseWrapper => {Paused, Running, Error}
    case ResetTaskWrapper => {ResettingTask, DeviceReady, InitializingTask, ResettingDevice, Error}
    case ResetWrapper => {ResettingDevice, Idle, InitializingDevice, Exiting, Error}
  }

  /**
   While a handler runs, the machine is in its state, in the one its own event leads to, or in
   the one state a single waiting caller has already written, or in error.
   */
  lemma AtMostOneCallerAhead(actions: seq<Action>)
    requires Reached(actions).worker.Busy?
    ensures var s := Reached(actions);
            && s.fState in Visible(s.worker.h)
            && (!s.error ==> s.region in Regions(s.worker.h, s.worker.phase))
            && (!s.error ==> s.fState == s.region || (s.caller.Call? && s.fState == s.caller.row.target))
  {
    ReachedInv(actions);
  }

  // ----- the one mutual wait -----

  /** The caller waits for the worker to go inactive while the worker's next move needs the caller's mutex. */
  ghost predicate MutualWait(s: State) {
    && s.caller.Call? && !s.caller.row.fct.Exit?
    && s.worker.Busy? && SignalOf(s.worker.h).Some?
    && s.worker.phase == if s.worker.h == RunWrapper then Signalling else Body
  }

  /** Nothing but an exception in the handler gets the machine out of it. */
  lemma MutualWaitIsStuck(actions: seq<Action>, a: Action)
    requires MutualWait(Reached(actions)) && a != Throw
    ensures Do(Reached(actions), a) == Reached(actions)
  {
    ReachedInv(actions);
  }

  /** Of all handlers only RunWrapper, past its check of the state, can be caught in it. */
  lemma MutualWaitOnlyInRun(actions: seq<Action>)
    requires MutualWait(Reached(actions))
    ensures Reached(actions).worker.h == RunWrapper
  {
    ReachedInv(actions);
  }

  /**
   What leads into it: STOP or PAUSE taking the mutex after RunWrapper has seen RUNNING, or
   RunWrapper, late for a run already stopped, seeing the RUNNING of the next RUN, which waits for it.
   */
  predicate EntersMutualWait(s: State, a: Action) {
    && s.worker.Busy? && s.worker.h == RunWrapper && !s.error
    && (|| (s.worker.phase == Signalling && s.caller.NoCall? && (a == Request(Stop) || a == Request(Pause)))
        || (s.worker.phase == Body && s.caller.Call? && s.caller.e == Run && a == CheckRunning))
  }

  lemma MutualWaitExactly(actions: seq<Action>, a: Action)
    requires !MutualWait(Reached(actions))
    ensures MutualWait(Do(Reached(actions), a)) <==> EntersMutualWait(Reached(actions), a)
  {
    ReachedInv(actions);
  }

  lemma OneMore(actions: seq<Action>, a: Action, s: State)
    requires Reached(actions) == s
    ensures Reached(actions + [a]) == Do(s, a)
  {
    assert (actions + [a])[..|actions|] == actions;
  }

  ghost predicate Settled(s: State) {
    && !s.error && s.caller.NoCall? && s.worker == Free
    && !s.fWorkAvailable && !s.fWorkActive && !s.fWorkerTerminated
  }

  /** A handler requested in a settled state gets to run. */
  lemma Begins(actions: seq<Action>, e: Event, h: Handler) returns (actions': seq<Action>)
    requires Settled(Reached(actions))
    requires Table(Reached(actions).region, e) == Some(Row(StateOf(h), Post(h))) && !Internal(e) && !e.ErrorFound?
    ensures var s, s' := Reached(actions), Reached(actions');
            s' == s.(region := StateOf(h), fState := StateOf(h), fWork := Work(|s.posts|, h),
                     fWorkActive := true, fWorkAvailable := true, worker := Busy(|s.posts|, h, Body),
                     posts := s.posts + [h], starts := s.starts + [|s.posts|])
  {
    var s0 := Reached(actions);
    OneMore(actions, Request(e), s0);
    var s1, a1 := Do(s0, Request(e)), actions + [Request(e)];
    OneMore(a1, Finish, s1);
    var s2, a2 := Do(s1, Finish), a1 + [Finish];
    OneMore(a2, Wake, s2);
    var s3, a3 := Do(s2, Wake), a2 + [Wake];
    OneMore(a3, Begin, s3);
    actions' := a3 + [Begin];
  }

  /** A handler other than RunWrapper and PauseWrapper, once it runs undisturbed, runs to its end. */
  lemma Ends(actions: seq<Action>, next: St) returns (actions': seq<Action>)
    requires var s := Reached(actions);
             && !s.error && s.caller.NoCall? && s.worker.Busy? && s.worker.phase == Body && OneShot(s.worker.h)
             && Table(s.region, SignalOf(s.worker.h).value) == Some(Row(next, Automatic))
    ensures var s, s' := Reached(actions), Reached(actions');
            s' == s.(region := next, fState := next, fWorkActive := false, fWorkAvailable := false, worker := Free)
  {
    var s0 := Reached(actions);
    OneMore(actions, Signal, s0);
    var s1, a1 := Do(s0, Signal), actions + [Signal];
    OneMore(a1, Complete, s1);
    var s2, a2 := Do(s1, Complete), a1 + [Complete];
    OneMore(a2, Report, s2);
    actions' := a2 + [Report];
  }

  /** A device up to READY. */
  lemma GetsReady() returns (actions: seq<Action>)
    ensures Settled(Reached(actions)) && Reached(actions).region == Ready
  {
    actions := Begins([], InitDevice, InitWrapper);
    actions := Ends(actions, DeviceReady);
    actions := Begins(actions, InitTask, InitTaskWrapper);
    actions := Ends(actions, Ready);
  }

  /** It does happen: STOP or PAUSE can take the mutex right after RunWrapper has seen RUNNING. */
  lemma MutualWaitHappens(e: Event) returns (actions: seq<Action>)
    requires e == Stop || e == Pause
    ensures MutualWait(Reached(actions)) && Reached(actions).caller.e == e
  {
    actions := GetsReady();
    actions := Begins(actions, Run, RunWrapper);
    OneMore(actions, CheckRunning, Reached(actions));
    actions := actions + [CheckRunning];
    OneMore(actions, Request(e), Reached(actions));
    actions := actions + [Request(e)];
  }

  /** It also happens to RUN: stopped before its handler was picked up, and requested again once it was. */
  lemma MutualWaitHappensToRun() returns (actions: seq<Action>)
    ensures MutualWait(Reached(actions)) && Reached(actions).caller.e == Run
  {
    actions := GetsReady();
    OneMore(actions, Request(Run), Reached(actions));
    actions := actions + [Request(Run)];
    OneMore(actions, Finish, Reached(actions));
    actions := actions + [Finish];
    OneMore(actions, Request(Stop), Reached(actions));
    actions := actions + [Request(Stop)];
    OneMore(actions, Finish, Reached(actions));
    actions := actions + [Finish];
    actions := LateRun(actions);
  }

  lemma LateRun(actions: seq<Action>) returns (actions': seq<Action>)
    requires var s := Reached(actions);
             && !s.error && s.caller.NoCall? && s.worker == Free && s.region == Ready
             && s.fWorkAvailable && !s.fWorkerTerminated && s.fWork.Work? && s.fWork.h == RunWrapper
    ensures MutualWait(Reached(actions')) && Reached(actions').caller.e == Run
  {
    OneMore(actions, Wake, Reached(actions));
    actions' := actions + [Wake];
    OneMore(actions', Begin, Reached(actions'));
    actions' := actions' + [Begin];
    OneMore(actions', Request(Run), Reached(actions'));
    actions' := actions' + [Request(Run)];
    OneMore(actions', CheckRunning, Reached(actions'));
    actions' := actions' + [CheckRunning];
  }

  // ----- a paused device runs again -----

  ghost predicate RunsAt(s: State, region: St, h: Handler) {
    && !s.error && s.caller.NoCall? && s.region == region && s.fState == region && !s.fWorkerTerminated
    && s.worker.Busy? && s.worker.h == h && s.worker.phase == Body && s.fWorkActive && s.fWorkAvailable
  }

  ghost predicate WaitsFor(s: State, h: Handler) {
    && !s.error && s.caller.NoCall? && s.region == StateOf(h) && s.fState == StateOf(h) && !s.fWorkerTerminated
    && s.worker == Reporting && s.fWorkAvailable && !s.fWorkActive && s.fWork.Work? && s.fWork.h == h
  }

  lemma FourMore(actions: seq<Action>, a: Action, b: Action, c: Action, d: Action)
    ensures Reached(actions + [a] + [b] + [c] + [d]) == Do(Do(Do(Do(Reached(actions), a), b), c), d)
  {
    OneMore(actions, a, Reached(actions));
    OneMore(actions + [a], b, Reached(actions + [a]));
    OneMore(actions + [a] + [b], c, Reached(actions + [a] + [b]));
    OneMore(actions + [a] + [b] + [c], d, Reached(actions + [a] + [b] + [c]));
  }

  /** PAUSE is requested while RunWrapper runs, which sees it and ends. */
  lemma PauseRelieves(s: State)
    requires RunsAt(s, Running, RunWrapper)
    ensures WaitsFor(Do(Do(Do(Do(s, Request(Pause)), CheckRunning), Complete), Finish), PauseWrapper)
  {
  }

  lemma RunRelieves(s: State)
    requires RunsAt(s, Paused, PauseWrapper)
    ensures WaitsFor(Do(Do(Do(Do(s, Request(Run)), EndPause), Complete), Finish), RunWrapper)
  {
  }

  lemma TakesOver(actions: seq<Action>, h: Handler) returns (actions': seq<Action>)
    requires WaitsFor(Reached(actions), h)
    ensures RunsAt(Reached(actions'), StateOf(h), h)
  {
    OneMore(actions, Report, Reached(actions));
    actions' := actions + [Report];
    OneMore(actions', Wake, Reached(actions'));
    actions' := actions' + [Wake];
    OneMore(actions', Begin, Reached(actions'));
    actions' := actions' + [Begin];
  }

  /** In every run, from RUNNING with its handler at work, PAUSE and RUN lead to PAUSED and back, each with its handler at work. */
  lemma PausesAndResumes(actions: seq<Action>) returns (paused: seq<Action>, resumed: seq<Action>)
    requires RunsAt(Reached(actions), Running, RunWrapper)
    ensures RunsAt(Reached(paused), Paused, PauseWrapper) && RunsAt(Reached(resumed), Running, RunWrapper)
  {
    FourMore(actions, Request(Pause), CheckRunning, Complete, Finish);
    PauseRelieves(Reached(actions));
    paused := TakesOver(actions + [Request(Pause)] + [CheckRunning] + [Complete] + [Finish], PauseWrapper);
    FourMore(paused, Request(Run), EndPause, Complete, Finish);
    RunRelieves(Reached(paused));
    resumed := TakesOver(paused + [Request(Run)] + [EndPause] + [Complete] + [Finish], RunWrapper);
  }

  /** A run from the start to RUNNING with its handler at work. */
  lemma GetsRunning() returns (actions: seq<Action>)
    ensures RunsAt(Reached(actions), Running, RunWrapper)
  {
    actions := GetsReady();
    actions := Begins(actions, Run, RunWrapper);
  }

  // ----- after END -----

  /** EXITING and the order to leave come together. */
  ghost predicate LeavingInv(s: State) {
    (s.region == Exiting <==> s.fWorkerTerminated) && (s.region == Exiting ==> s.caller.NoCall?)
  }

  lemma StepLeaving(s: State, a: Action)
    requires PlaceInv(s) && LeavingInv(s)
    ensures LeavingInv(Do(s, a))
  {
  }

  lemma {:induction false} ReachedLeaving(actions: seq<Action>)
    ensures LeavingInv(Reached(actions))
  {
    if actions != [] {
      ReachedLeaving(actions[..|actions| - 1]);
      ReachedInv(actions[..|actions| - 1]);
      StepLeaving(Reached(actions[..|actions| - 1]), actions[|actions| - 1]);
    }
  }

  lemma ExitingStep(s: State, a: Action)
    requires PlaceInv(s) && LeavingInv(s) && s.region == Exiting && s.worker != Armed
    ensures var s' := Do(s, a); s'.region == Exiting && s'.worker != Armed && s'.starts == s.starts && s'.posts == s.posts
  {
  }

  ghost predicate PastEnd(s: State) {
    FlagsInv(s) && PlaceInv(s) && LeavingInv(s) && s.region == Exiting && s.worker != Armed
  }

  lemma PastEndStep(s: State, a: Action)
    requires PastEnd(s)
    ensures PastEnd(Do(s, a)) && Do(s, a).starts == s.starts && Do(s, a).posts == s.posts
  {
    StepFlags(s, a);
    StepPlace(s, a);
    StepLeaving(s, a);
    ExitingStep(s, a);
  }

  lemma {:induction false} PastEndStays(s: State, more: seq<Action>)
    requires PastEnd(s)
    ensures PastEnd(DoAll(s, more)) && DoAll(s, more).starts == s.starts && DoAll(s, more).posts == s.posts
  {
    if more != [] {
      PastEndStays(s, more[..|more| - 1]);
      PastEndStep(DoAll(s, more[..|more| - 1]), more[|more| - 1]);
    }
  }

  lemma {:induction false} ReachedThen(actions: seq<Action>, more: seq<Action>)
    ensures Reached(actions + more) == DoAll(Reached(actions), more)
    decreases |more|
  {
    if more == [] {
      assert actions + more == actions;
    } else {
      ReachedThen(actions, more[..|more| - 1]);
      assert (actions + more)[..|actions + more| - 1] == actions + more[..|more| - 1];
    }
  }

  /**
   In every run END is the end: once EXITING the worker has its order to leave, which it follows as soon as
   it is free, and unless one was just picked up no handler begins and none is posted any more.
   */
  lemma EndIsTheEnd(actions: seq<Action>, more: seq<Action>)
    requires Reached(actions).region == Exiting
    ensures var s := Reached(actions);
            && s.fWorkerTerminated && (s.worker == Free ==> Do(s, Wake).worker == Gone)
            && (s.worker != Armed ==> Reached(actions + more).starts == s.starts && Reached(actions + more).posts == s.posts)
  {
    ReachedLeaving(actions);
    ReachedInv(actions);
    ReachedThen(actions, more);
    if Reached(actions).worker != Armed {
      PastEndStays(Reached(actions), more);
    }
  }
}
