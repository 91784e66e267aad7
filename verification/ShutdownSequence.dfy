/**
 The Control plugin shutting a device down: it reads the current state, empties its event queue,
 and then answers every state event, however stale, with the request that state calls for. Control
 is the only controller and PAUSE is never requested.
 */
module ShutdownSequence {
  import opened DeviceMachine

  /** The thread in `RunShutdownSequence`. */
  datatype Control =
    | Start
    | HasRead(next: St)
    | Deciding(next: St)
    | Asking(e: Event)     // in ChangeDeviceState, waiting for the device's mutex
    | InCall               // its request was accepted and is being carried out
    | AwaitingEvent
    | Returned
    | Thrown               // DeviceErrorState

  datatype System = System(dev: State, events: seq<St>, ctl: Control, accepted: seq<Event>)

  datatype Step =
    | Device(a: Action)    // the worker, the call in progress, or an error found
    | Announce             // a wrapper calls the callbacks with its own state
    | TellThenThrow        // of the worker's callbacks Control's has run, and a later one throws
    | ReadState
    | EmptyQueue
    | Decide
    | Ask
    | CallDone
    | TakeEvent

  /** What the state change callbacks push to Control in one device action. */
  function Pushed(dev: State, a: Action): seq<St> {
    match a
    case Report => if dev.worker == Reporting then [dev.fState] else []
    case Finish => if dev.caller.Call? && dev.caller.row.fct.Exit? then [Exiting] else []
    case Request(_) => if Do(dev, a).error && !dev.error then [Error] else []
    case Fail => if Do(dev, a).error && !dev.error then [Error] else []
    case _ => []
  }

  function Decision(next: St): Control {
    match next
    case Exiting => Returned
    case Error => Returned
    case Idle => Asking(End)
    case DeviceReady => Asking(ResetDevice)
    case Ready => Asking(ResetTask)
    case Running => Asking(Stop)
    case Paused => Asking(Run)
    case _ => AwaitingEvent
  }

  function Asked(s: System, e: Event): System
    requires s.dev.caller.NoCall? && !Internal(e)
  {
    var dev := Requested(s.dev, e);
    if dev.caller.Call? then s.(dev := dev, ctl := InCall, accepted := s.accepted + [e])
    else s.(dev := dev, ctl := AwaitingEvent)
  }

  /** One atomic step; one that is not enabled leaves the system alone. */
  function Take(s: System, step: Step): System {
    match step
    case Device(a) =>
      if a.Request? && a.e != ErrorFound then s
      else s.(dev := Do(s.dev, a), events := s.events + Pushed(s.dev, a))
    case Announce =>
      if s.dev.worker.Busy? && s.dev.worker.phase == Body
      then s.(events := s.events + [StateOf(s.dev.worker.h)]) else s
    case TellThenThrow =>
      if s.dev.worker == Reporting
      then s.(dev := Do(s.dev, Throw), events := s.events + [s.dev.fState]) else s
    case ReadState => if s.ctl == Start then s.(ctl := HasRead(s.dev.fState)) else s
    case EmptyQueue => if s.ctl.HasRead? then s.(events := [], ctl := Deciding(s.ctl.next)) else s
    case Decide => if s.ctl.Deciding? then s.(ctl := Decision(s.ctl.next)) else s
    case Ask =>
      if s.ctl.Asking? && s.dev.caller.NoCall? && !Internal(s.ctl.e) then Asked(s, s.ctl.e) else s
    case CallDone => if s.ctl == InCall && s.dev.caller.NoCall? then s.(ctl := AwaitingEvent) else s
    case TakeEvent =>
      if s.ctl == AwaitingEvent && s.events != [] then
        if s.events[0] == Error then s.(ctl := Thrown)
        else s.(events := s.events[1..], ctl := Deciding(s.events[0]))
      else s
  }

  function TakeAll(s: System, steps: seq<Step>): System {
    if steps == [] then s
    else Take(TakeAll(s, steps[..|steps| - 1]), steps[|steps| - 1])
  }

  // ----- where it can start -----

  /** PAUSED is not the state, not a waiting post, and not on its way. */
  ghost predicate NeverPaused(dev: State) {
    && dev.region != Paused && dev.fState != Paused
    && (dev.caller.Call? ==> dev.caller.row.target != Paused)
    && (dev.fWork.Work? ==> dev.fWork.h != PauseWrapper)
    && (dev.worker.Busy? ==> dev.worker.h != PauseWrapper)
  }

  lemma NeverPausedStep(dev: State, a: Action)
    requires FlagsInv(dev) && PlaceInv(dev) && NeverPaused(dev) && a != Request(Pause)
    ensures NeverPaused(Do(dev, a))
  {
  }

  lemma {:induction false} NoPauseRequested(actions: seq<Action>)
    requires forall i | 0 <= i < |actions| :: actions[i] != Request(Pause)
    ensures NeverPaused(Reached(actions))
  {
    if actions != [] {
      var before, a := Reached(actions[..|actions| - 1]), actions[|actions| - 1];
      NoPauseRequested(actions[..|actions| - 1]);
      ReachedInv(actions[..|actions| - 1]);
      NeverPausedStep(before, a);
    }
  }

  /** Any device a run without PAUSE leads to, with no call in progress, and any stale events. */
  ghost predicate CanStart(s: System, actions: seq<Action>) {
    && (forall i | 0 <= i < |actions| :: actions[i] != Request(Pause))
    && s.dev == Reached(actions) && s.dev.caller.NoCall?
    && s.ctl == Start && s.accepted == []
  }

  // ----- the measure -----

  function Rank(s: St): nat {
    match s
    case Running => 7
    case InitializingTask => 7
    case Ready => 6
    case ResettingTask => 5
    case InitializingDevice => 4
    case DeviceReady => 3
    case ResettingDevice => 2
    case Idle => 1
    case Exiting => 0
    case Paused => 8
    case Error => 8
  }

  /** Where the device is, or is being taken by the call in progress. */
  function Heading(dev: State): St {
    if dev.caller.Call? then dev.caller.row.target else dev.region
  }

  predicate ShutdownEvent(e: Event) {
    e in {Stop, ResetTask, ResetDevice, End}
  }

  function Source(e: Event): St
    requires ShutdownEvent(e)
  {
    match e
    case Stop => Running
    case ResetTask => Ready
    case ResetDevice => DeviceReady
    case End => Idle
  }

  // ----- the invariant -----

  /** A state Control may act on: never PAUSED, and Exiting or Error only if it is so. */
  ghost predicate Credible(dev: State, next: St) {
    && next != Paused
    && (next == Exiting ==> Heading(dev) == Exiting)
    && (next == Error ==> dev.error)
  }

  ghost predicate DeviceInv(dev: State) {
    FlagsInv(dev) && PlaceInv(dev) && NeverPaused(dev)
  }

  ghost predicate ControlInv(s: System) {
    && (s.ctl != Start && !s.ctl.HasRead? ==> forall i | 0 <= i < |s.events| :: Credible(s.dev, s.events[i]))
    && (s.ctl.HasRead? || s.ctl.Deciding? ==> Credible(s.dev, s.ctl.next))
    && (s.ctl.Asking? ==> ShutdownEvent(s.ctl.e))
    && (s.ctl == Returned ==> Heading(s.dev) == Exiting || s.dev.error)
    && (s.ctl == Thrown ==> s.dev.error)
  }

  ghost predicate AcceptedInv(s: System) {
    && (forall i | 0 <= i < |s.accepted| :: ShutdownEvent(s.accepted[i]) && Rank(Heading(s.dev)) < Rank(Source(s.accepted[i])))
    && (forall i, j | 0 <= i < j < |s.accepted| :: Rank(Source(s.accepted[i])) > Rank(Source(s.accepted[j])))
  }

  ghost predicate Inv(s: System) {
    DeviceInv(s.dev) && ControlInv(s) && AcceptedInv(s)
  }

  /** Every move of the device on its own, and every shutdown request, is down or nowhere. */
  lemma DeviceDescends(dev: State, a: Action)
    requires DeviceInv(dev) && (a.Request? ==> a.e == ErrorFound || ShutdownEvent(a.e))
    ensures Rank(Heading(Do(dev, a))) <= Rank(Heading(dev))
    ensures dev.error ==> Do(dev, a).error
  {
  }

  lemma DeviceStep(s: System, step: Step)
    requires Inv(s)
    ensures DeviceInv(Take(s, step).dev)
    ensures Rank(Heading(Take(s, step).dev)) <= Rank(Heading(s.dev))
    ensures s.dev.error ==> Take(s, step).dev.error
  {
    if step.Device? && (step.a.Request? ==> step.a.e == ErrorFound) {
      StepFlags(s.dev, step.a);
      StepPlace(s.dev, step.a);
      NeverPausedStep(s.dev, step.a);
      DeviceDescends(s.dev, step.a);
    } else if step.Ask? && s.ctl.Asking? {
      var a := Request(s.ctl.e);
      StepFlags(s.dev, a);
      StepPlace(s.dev, a);
      NeverPausedStep(s.dev, a);
      DeviceDescends(s.dev, a);
    } else if step.TellThenThrow? {
      StepFlags(s.dev, Throw);
      StepPlace(s.dev, Throw);
      NeverPausedStep(s.dev, Throw);
    }
  }

  lemma PushedCredible(dev: State, a: Action, i: nat)
    requires DeviceInv(dev) && i < |Pushed(dev, a)|
    ensures Credible(Do(dev, a), Pushed(dev, a)[i])
  {
  }

  lemma CredibleStays(s: System, step: Step, next: St)
    requires Inv(s) && Credible(s.dev, next)
    ensures Credible(Take(s, step).dev, next)
  {
    DeviceStep(s, step);
  }

  /** What is in the queue after a step was there before, or is what the step pushes. */
  lemma EventsStep(s: System, step: Step)
    requires Inv(s) && s.ctl != Start && !s.ctl.HasRead?
    ensures forall i | 0 <= i < |Take(s, step).events| :: Credible(Take(s, step).dev, Take(s, step).events[i])
  {
    var s' := Take(s, step);
    DeviceStep(s, step);
    forall i | 0 <= i < |s.events|
      ensures Credible(s'.dev, s.events[i])
    {
      CredibleStays(s, step, s.events[i]);
    }
    if step.Device? {
      forall i: nat | i < |Pushed(s.dev, step.a)| && s'.dev == Do(s.dev, step.a)
        ensures Credible(s'.dev, Pushed(s.dev, step.a)[i])
      {
        PushedCredible(s.dev, step.a, i);
      }
    }
  }

  lemma ControlStep(s: System, step: Step)
    requires Inv(s)
    ensures ControlInv(Take(s, step))
  {
    DeviceStep(s, step);
    if s.ctl != Start && !s.ctl.HasRead? {
      EventsStep(s, step);
    }
    if s.ctl.HasRead? || s.ctl.Deciding? {
      CredibleStays(s, step, s.ctl.next);
    }
  }

  lemma AcceptedStep(s: System, step: Step)
    requires Inv(s)
    ensures AcceptedInv(Take(s, step))
    ensures var s' := Take(s, step);
            s'.accepted != s.accepted ==> s'.ctl == InCall && Rank(Heading(s'.dev)) < Rank(Heading(s.dev))
  {
    DeviceStep(s, step);
    var s' := Take(s, step);
    if s'.accepted != s.accepted {
      assert Heading(s.dev) == Source(s.ctl.e);
    }
  }

  lemma {:induction false} RunInv(s: System, actions: seq<Action>, steps: seq<Step>)
    requires CanStart(s, actions)
    ensures Inv(TakeAll(s, steps))
  {
    if steps == [] {
      ReachedInv(actions);
      NoPauseRequested(actions);
    } else {
      var before, step := TakeAll(s, steps[..|steps| - 1]), steps[|steps| - 1];
      RunInv(s, actions, steps[..|steps| - 1]);
      DeviceStep(before, step);
      ControlStep(before, step);
      AcceptedStep(before, step);
    }
  }

  /**
   In every interleaving of Control with the worker and its callbacks, no step takes the device
   up, and a request that is accepted, on however stale an event, takes it strictly down.
   */
  lemma ShutdownOnlyDescends(s: System, actions: seq<Action>, steps: seq<Step>, step: Step)
    requires CanStart(s, actions)
    ensures var before := TakeAll(s, steps);
            var after := Take(before, step);
            && Rank(Heading(after.dev)) <= Rank(Heading(before.dev))
            && (after.accepted != before.accepted ==> Rank(Heading(after.dev)) < Rank(Heading(before.dev)))
  {
    RunInv(s, actions, steps);
    DeviceStep(TakeAll(s, steps), step);
    AcceptedStep(TakeAll(s, steps), step);
  }

  function Turn(e: Event): nat
    requires ShutdownEvent(e)
  {
    match e
    case Stop => 0
    case ResetTask => 1
    case ResetDevice => 2
    case End => 3
  }

  ghost predicate InTurn(accepted: seq<Event>) {
    && (forall i | 0 <= i < |accepted| :: ShutdownEvent(accepted[i]))
    && (forall i, j | 0 <= i < j < |accepted| :: Turn(accepted[i]) < Turn(accepted[j]))
  }

  lemma {:induction false} TurnAtLeast(accepted: seq<Event>, i: nat)
    requires InTurn(accepted) && i < |accepted|
    ensures i <= Turn(accepted[i])
  {
    if i > 0 {
      TurnAtLeast(accepted, i - 1);
    }
  }

  /** Of all requests made, at most STOP, RESET_TASK, RESET_DEVICE and END are accepted, in that order, once each. */
  lemma FourRequestsAtMost(s: System, actions: seq<Action>, steps: seq<Step>)
    requires CanStart(s, actions)
    ensures InTurn(TakeAll(s, steps).accepted) && |TakeAll(s, steps).accepted| <= 4
  {
    RunInv(s, actions, steps);
    var accepted := TakeAll(s, steps).accepted;
    forall i, j | 0 <= i < j < |accepted| ensures Turn(accepted[i]) < Turn(accepted[j]) {
      assert Rank(Source(accepted[i])) > Rank(Source(accepted[j]));
    }
    if accepted != [] {
      TurnAtLeast(accepted, |accepted| - 1);
    }
  }

  /** When the sequence returns, the device is exiting or in error; it throws only on an error. */
  lemma ReturnMeansDown(s: System, actions: seq<Action>, steps: seq<Step>)
    requires CanStart(s, actions)
    ensures var after := TakeAll(s, steps);
            && (after.ctl == Returned ==> Heading(after.dev) == Exiting || after.dev.error)
            && (after.ctl == Thrown ==> after.dev.error)
  {
    RunInv(s, actions, steps);
  }

  // ----- the event that gets lost -----

  /** Control waits for an event that no part of a settled device will send. */
  ghost predicate Hung(s: System) {
    && s.ctl == AwaitingEvent && s.events == []
    && s.dev.worker == Free && !s.dev.fWorkAvailable && !s.dev.fWorkerTerminated
    && s.dev.caller.NoCall? && !s.dev.error && s.dev.region != Exiting
  }

  ghost predicate HangsAfter(s: System, steps: seq<Step>) {
    Hung(TakeAll(s, steps))
  }

  lemma HungIsStuck(s: System, step: Step)
    requires Hung(s) && step != Device(Request(ErrorFound))
    ensures Take(s, step) == s
  {
  }

  lemma {:induction false} StepsThen(s: System, first: seq<Step>, more: seq<Step>)
    ensures TakeAll(s, first + more) == TakeAll(TakeAll(s, first), more)
    decreases |more|
  {
    if more == [] {
      assert first + more == first;
    } else {
      StepsThen(s, first, more[..|more| - 1]);
      assert (first + more)[..|first + more| - 1] == first + more[..|more| - 1];
    }
  }

  function Three(s: System, a: Step, b: Step, c: Step): System {
    Take(Take(Take(s, a), b), c)
  }

  lemma ThreeSteps(s: System, a: Step, b: Step, c: Step)
    ensures TakeAll(s, [a, b, c]) == Three(s, a, b, c)
  {
    assert [a, b, c][..2] == [a, b] && [a, b][..1] == [a] && [a][..0] == [];
    assert TakeAll(s, [a]) == Take(s, a);
    assert TakeAll(s, [a, b]) == Take(Take(s, a), b);
  }

  lemma ThreeMore(s: System, steps: seq<Step>, a: Step, b: Step, c: Step)
    ensures TakeAll(s, steps + [a, b, c]) == Three(TakeAll(s, steps), a, b, c)
  {
    StepsThen(s, steps, [a, b, c]);
    ThreeSteps(TakeAll(s, steps), a, b, c);
  }

  /** A handler runs, or is about to, that ends by itself with an event of its own. */
  predicate EndsByItself(dev: State) {
    !dev.error && (OneShotState(dev.region) || dev.region == Running) && !dev.worker.Failed?
  }

  /** That handler at work, and nobody in its way. */
  ghost predicate AtWork(s: System, ctl: Control) {
    && s.ctl == ctl && !s.dev.error && s.dev.caller.NoCall? && s.dev.fState == s.dev.region
    && s.dev.worker.Busy? && s.dev.region == StateOf(s.dev.worker.h) && !s.dev.fWorkerTerminated
    && s.dev.worker.h != PauseWrapper
    && (s.dev.worker.phase == Body || (s.dev.worker.h == RunWrapper && s.dev.worker.phase == Signalling))
  }

  lemma GetsToWork(s: System, actions: seq<Action>)
    requires CanStart(s, actions) && EndsByItself(s.dev)
    ensures AtWork(Three(s, Device(Report), Device(Wake), Device(Begin)), Start)
  {
    ReachedInv(actions);
    NoPauseRequested(actions);
  }

  /** The state is read, and then the handler sends its event. */
  lemma EndsAfterRead(s: System)
    requires AtWork(s, Start)
    ensures var t := Three(s, ReadState, Device(CheckRunning), Device(Signal));
            && t.ctl == HasRead(s.dev.region) && !t.dev.error && t.dev.caller.NoCall? && !t.dev.fWorkerTerminated
            && t.dev.worker.Busy? && t.dev.worker.phase == Ended
            && t.dev.region in {DeviceReady, Ready, Idle} && t.dev.fState == t.dev.region
  {
  }

  lemma ReportIsDiscarded(s: System)
    requires s.ctl.HasRead? && !s.dev.error && s.dev.caller.NoCall? && !s.dev.fWorkerTerminated
    requires s.dev.worker.Busy? && s.dev.worker.phase == Ended
    ensures var t := Three(s, Device(Complete), Device(Report), EmptyQueue);
            && t.ctl == Deciding(s.ctl.next) && t.events == [] && t.dev.worker == Free && !t.dev.fWorkAvailable
            && !t.dev.error && t.dev.caller.NoCall? && t.dev.region == s.dev.region && !t.dev.fWorkerTerminated
  {
  }

  lemma DecidesOnOldState(s: System)
    requires s.ctl.Deciding? && s.events == [] && s.dev.worker == Free && !s.dev.fWorkAvailable
    requires !s.dev.error && s.dev.caller.NoCall? && !s.dev.fWorkerTerminated && s.dev.region in {DeviceReady, Ready, Idle}
    requires OneShotState(s.ctl.next) || s.ctl.next == Running
    ensures Hung(Three(s, Decide, Ask, TakeEvent))
  {
  }

  /** The queue is emptied after the state is read: a handler that ends in between has its event thrown away. */
  lemma ShutdownCanHang(s: System, actions: seq<Action>) returns (steps: seq<Step>)
    requires CanStart(s, actions) && EndsByItself(s.dev)
    ensures Hung(TakeAll(s, steps))
  {
    ThreeSteps(s, Device(Report), Device(Wake), Device(Begin));
    steps := [Device(Report), Device(Wake), Device(Begin)];
    GetsToWork(s, actions);
    ThreeMore(s, steps, ReadState, Device(CheckRunning), Device(Signal));
    EndsAfterRead(TakeAll(s, steps));
    steps := steps + [ReadState, Device(CheckRunning), Device(Signal)];
    ThreeMore(s, steps, Device(Complete), Device(Report), EmptyQueue);
    ReportIsDiscarded(TakeAll(s, steps));
    steps := steps + [Device(Complete), Device(Report), EmptyQueue];
    ThreeMore(s, steps, Decide, Ask, TakeEvent);
    DecidesOnOldState(TakeAll(s, steps));
    steps := steps + [Decide, Ask, TakeEvent];
  }

  // ----- when nothing gets lost -----

  ghost predicate Resting(dev: State) {
    !dev.error && dev.caller.NoCall? && dev.worker == Free && !dev.fWorkAvailable && dev.region != Exiting
  }

  /** Control has the state, or the request for it, in hand. */
  predicate InHand(ctl: Control, region: St) {
    match ctl
    case Start => true
    case HasRead(next) => next == region
    case Deciding(next) => next == region
    case Asking(e) => ShutdownEvent(e) && Source(e) == region
    case _ => false
  }

  /** While Control reads and empties the queue the state does not change; a resting device is in hand or in the queue. */
  ghost predicate NothingLost(s: System) {
    && s.dev.region != Running && (s.dev.caller.Call? ==> s.dev.caller.row.target != Running)
    && (s.ctl == Start || s.ctl.HasRead? ==>
          s.dev.caller.NoCall? && s.dev.region in {Idle, DeviceReady, Ready, Exiting} && InHand(s.ctl, s.dev.region))
    && (Resting(s.dev) ==> s.dev.region in s.events || InHand(s.ctl, s.dev.region) || s.ctl == Returned)
  }

  /** The device in error or its worker dead: never at rest again. */
  predicate Down(dev: State) {
    dev.error || dev.worker.Failed? || dev.worker.Gone?
  }

  lemma DownStays(s: System, step: Step)
    requires Down(s.dev)
    ensures Down(Take(s, step).dev)
  {
  }

  lemma DeviceLosesNothing(s: System, a: Action)
    requires Inv(s) && SignallingInv(s.dev) && NothingLost(s)
    ensures var s' := Take(s, Device(a)); Down(s'.dev) || NothingLost(s')
  {
  }

  lemma AskLosesNothing(s: System)
    requires Inv(s) && NothingLost(s) && !Down(s.dev)
    ensures NothingLost(Take(s, Ask))
  {
  }

  lemma ControlLosesNothing(s: System, step: Step)
    requires Inv(s) && NothingLost(s) && !step.Device? && !Down(s.dev)
    ensures Down(Take(s, step).dev) || NothingLost(Take(s, step))
  {
    if step.Ask? {
      AskLosesNothing(s);
    }
  }

  lemma SignallingStep(s: System, step: Step)
    requires Inv(s) && SignallingInv(s.dev)
    ensures SignallingInv(Take(s, step).dev)
  {
    if step.Device? && (step.a.Request? ==> step.a.e == ErrorFound) {
      StepSignalling(s.dev, step.a);
    } else if step.Ask? && s.ctl.Asking? {
      StepSignalling(s.dev, Request(s.ctl.e));
    } else if step.TellThenThrow? {
      StepSignalling(s.dev, Throw);
    }
  }

  lemma {:induction false} RunLosesNothing(s: System, actions: seq<Action>, steps: seq<Step>)
    requires CanStart(s, actions) && !EndsByItself(s.dev)
    ensures var t := TakeAll(s, steps); SignallingInv(t.dev) && (Down(t.dev) || NothingLost(t))
  {
    if steps == [] {
      ReachedInv(actions);
      NoPauseRequested(actions);
    } else {
      var before, step := TakeAll(s, steps[..|steps| - 1]), steps[|steps| - 1];
      RunLosesNothing(s, actions, steps[..|steps| - 1]);
      RunInv(s, actions, steps[..|steps| - 1]);
      SignallingStep(before, step);
      if Down(before.dev) {
        DownStays(before, step);
      } else if step.Device? {
        DeviceLosesNothing(before, step.a);
      } else {
        ControlLosesNothing(before, step);
      }
    }
  }

  /**
   Control can end up waiting for ever on a device that is up, exactly when it starts while a handler
   that ends by itself runs or is about to: in one of the four one-shot states or RUNNING, with the worker alive.
   */
  lemma HangsExactly(s: System, actions: seq<Action>)
    requires CanStart(s, actions)
    ensures (exists steps :: HangsAfter(s, steps)) <==> EndsByItself(s.dev)
  {
    if EndsByItself(s.dev) {
      var steps := ShutdownCanHang(s, actions);
      assert HangsAfter(s, steps);
    } else {
      forall steps
        ensures !HangsAfter(s, steps)
      {
        RunLosesNothing(s, actions, steps);
      }
    }
  }

  // ----- the error that gets lost -----

  /** Control waits for an event of a device that is in error and has told so. The error may come from any thread. */
  ghost predicate MissedError(s: System) {
    && s.ctl == AwaitingEvent && s.events == [] && s.dev.error && s.dev.caller.NoCall?
    && (s.dev.worker == Gone || (s.dev.worker == Free && !s.dev.fWorkAvailable && !s.dev.fWorkerTerminated))
  }

  ghost predicate MissesErrorAfter(s: System, steps: seq<Step>) {
    MissedError(TakeAll(s, steps))
  }

  lemma MissedErrorIsStuck(s: System, step: Step)
    requires MissedError(s)
    ensures Take(s, step) == s
  {
  }

  lemma ReadsThenWorks(s: System, actions: seq<Action>)
    requires CanStart(s, actions) && !s.dev.error && s.dev.region != Exiting
    ensures var t := Three(s, ReadState, Device(Wake), Device(Begin));
            && t.ctl.HasRead? && t.ctl.next !in {Exiting, Error, Paused} && !t.dev.error && t.dev.caller.NoCall? && !t.dev.fWorkerTerminated
            && (t.dev.worker.Busy? || t.dev.worker.Reporting? || t.dev.worker.Failed? || (t.dev.worker == Free && !t.dev.fWorkAvailable))
  {
    ReachedInv(actions);
    NoPauseRequested(actions);
  }

  lemma FailsAfterRead(s: System)
    requires s.ctl.HasRead? && !s.dev.error && s.dev.caller.NoCall? && !s.dev.fWorkerTerminated
    requires s.dev.worker.Busy? || s.dev.worker.Reporting? || s.dev.worker.Failed? || (s.dev.worker == Free && !s.dev.fWorkAvailable)
    ensures var t := Three(s, Device(Throw), Device(Fail), Device(Request(ErrorFound)));
            && t.ctl == s.ctl && t.dev.error && t.dev.caller.NoCall?
            && (t.dev.worker == Gone || (t.dev.worker == Free && !t.dev.fWorkAvailable && !t.dev.fWorkerTerminated))
  {
  }

  lemma ErrorIsDiscarded(s: System)
    requires s.ctl.HasRead? && s.ctl.next !in {Exiting, Error, Paused} && s.dev.error && s.dev.caller.NoCall?
    requires s.dev.worker == Gone || (s.dev.worker == Free && !s.dev.fWorkAvailable && !s.dev.fWorkerTerminated)
    ensures MissedError(Three(s, EmptyQueue, Decide, Ask))
  {
  }

  lemma ErrorCanBeMissed(s: System, actions: seq<Action>) returns (steps: seq<Step>)
    requires CanStart(s, actions) && !s.dev.error && s.dev.region != Exiting
    ensures MissedError(TakeAll(s, steps))
  {
    ThreeSteps(s, ReadState, Device(Wake), Device(Begin));
    steps := [ReadState, Device(Wake), Device(Begin)];
    ReadsThenWorks(s, actions);
    ThreeMore(s, steps, Device(Throw), Device(Fail), Device(Request(ErrorFound)));
    FailsAfterRead(TakeAll(s, steps));
    steps := steps + [Device(Throw), Device(Fail), Device(Request(ErrorFound))];
    ThreeMore(s, steps, EmptyQueue, Decide, Ask);
    ErrorIsDiscarded(TakeAll(s, steps));
    steps := steps + [EmptyQueue, Decide, Ask];
  }

  /** From the start there is nothing left for Control to do. */
  ghost predicate OnlyReturns(s: System) {
    && s.dev.fState in {Exiting, Error} && s.dev.caller.NoCall?
    && match s.ctl {
         case Start => true
         case HasRead(next) => next in {Exiting, Error}
         case Deciding(next) => next in {Exiting, Error}
         case Returned => true
         case _ => false
       }
  }

  lemma OnlyReturnsStep(s: System, step: Step)
    requires Inv(s) && OnlyReturns(s)
    ensures OnlyReturns(Take(s, step))
  {
  }

  lemma {:induction false} RunOnlyReturns(s: System, actions: seq<Action>, steps: seq<Step>)
    requires CanStart(s, actions) && (s.dev.error || s.dev.region == Exiting)
    ensures OnlyReturns(TakeAll(s, steps))
  {
    if steps == [] {
      ReachedInv(actions);
    } else {
      RunOnlyReturns(s, actions, steps[..|steps| - 1]);
      RunInv(s, actions, steps[..|steps| - 1]);
      OnlyReturnsStep(TakeAll(s, steps[..|steps| - 1]), steps[|steps| - 1]);
    }
  }

  /** An error can be missed for ever from every start but one in error or EXITING. */
  lemma MissesErrorExactly(s: System, actions: seq<Action>)
    requires CanStart(s, actions)
    ensures (exists steps :: MissesErrorAfter(s, steps)) <==> !s.dev.error && s.dev.region != Exiting
  {
    if !s.dev.error && s.dev.region != Exiting {
      var steps := ErrorCanBeMissed(s, actions);
      assert MissesErrorAfter(s, steps);
    } else {
      forall steps
        ensures !MissesErrorAfter(s, steps)
      {
        RunOnlyReturns(s, actions, steps);
      }
    }
  }

  // ----- errors of the device's own worker only -----

  /** No thread but the worker finds an error. */
  ghost predicate OwnErrorsOnly(steps: seq<Step>) {
    Device(Request(ErrorFound)) !in steps
  }

  ghost predicate MissesOwnErrorAfter(s: System, steps: seq<Step>) {
    OwnErrorsOnly(steps) && MissedError(TakeAll(s, steps))
  }

  lemma WorkerFailsAfterRead(s: System)
    requires s.ctl.HasRead? && !s.dev.error && s.dev.caller.NoCall? && !s.dev.fWorkerTerminated
    requires s.dev.worker.Busy? || s.dev.worker.Reporting? || s.dev.worker.Failed?
    ensures var t := Three(s, Device(Throw), Device(Fail), Device(Fail));
            t.ctl == s.ctl && t.dev.error && t.dev.caller.NoCall? && t.dev.worker == Gone
  {
  }

  lemma BusyAfterRead(s: System, actions: seq<Action>)
    requires CanStart(s, actions) && !s.dev.error && s.dev.region != Exiting && !Resting(s.dev)
    ensures var t := Three(s, ReadState, Device(Wake), Device(Begin));
            && t.ctl.HasRead? && t.ctl.next !in {Exiting, Error, Paused} && !t.dev.error && t.dev.caller.NoCall? && !t.dev.fWorkerTerminated
            && (t.dev.worker.Busy? || t.dev.worker.Reporting? || t.dev.worker.Failed?)
  {
    ReachedInv(actions);
    NoPauseRequested(actions);
  }

  lemma OwnErrorIsMissed(s: System, actions: seq<Action>)
    requires CanStart(s, actions) && !s.dev.error && s.dev.region != Exiting && !Resting(s.dev)
    ensures MissedError(Three(Three(Three(s, ReadState, Device(Wake), Device(Begin)),
                                    Device(Throw), Device(Fail), Device(Fail)), EmptyQueue, Decide, Ask))
  {
    var t := Three(s, ReadState, Device(Wake), Device(Begin));
    BusyAfterRead(s, actions);
    WorkerFailsAfterRead(t);
    ErrorIsDiscarded(Three(t, Device(Throw), Device(Fail), Device(Fail)));
  }

  lemma OwnErrorCanBeMissed(s: System, actions: seq<Action>) returns (steps: seq<Step>)
    requires CanStart(s, actions) && !s.dev.error && s.dev.region != Exiting && !Resting(s.dev)
    ensures MissesOwnErrorAfter(s, steps)
  {
    var read, fail := [ReadState, Device(Wake), Device(Begin)], [Device(Throw), Device(Fail), Device(Fail)];
    ThreeSteps(s, ReadState, Device(Wake), Device(Begin));
    ThreeMore(s, read, Device(Throw), Device(Fail), Device(Fail));
    ThreeMore(s, read + fail, EmptyQueue, Decide, Ask);
    OwnErrorIsMissed(s, actions);
    steps := read + fail + [EmptyQueue, Decide, Ask];
  }

  /** The device rests until the queue is emptied; an error after that stays in the queue until Control ends. */
  ghost predicate ErrorKept(s: System) {
    && (s.ctl == Start || s.ctl.HasRead? ==> Resting(s.dev))
    && (s.dev.error ==> Error in s.events || s.ctl == Thrown || s.ctl == Returned)
  }

  lemma ErrorKeptStep(s: System, step: Step)
    requires Inv(s) && ErrorKept(s) && step != Device(Request(ErrorFound))
    ensures ErrorKept(Take(s, step))
  {
  }

  lemma {:induction false} RunKeepsError(s: System, actions: seq<Action>, steps: seq<Step>)
    requires CanStart(s, actions) && Resting(s.dev) && OwnErrorsOnly(steps)
    ensures ErrorKept(TakeAll(s, steps))
  {
    if steps != [] {
      RunKeepsError(s, actions, steps[..|steps| - 1]);
      RunInv(s, actions, steps[..|steps| - 1]);
      ErrorKeptStep(TakeAll(s, steps[..|steps| - 1]), steps[|steps| - 1]);
    }
  }

  /**
   If only the worker finds errors, one can be missed for ever exactly when the sequence starts with
   the worker not at rest, on a device neither in error nor EXITING.
   */
  lemma MissesOwnErrorExactly(s: System, actions: seq<Action>)
    requires CanStart(s, actions)
    ensures (exists steps :: MissesOwnErrorAfter(s, steps))
       <==> !s.dev.error && s.dev.region != Exiting && !(s.dev.worker == Free && !s.dev.fWorkAvailable)
  {
    if !s.dev.error && s.dev.region != Exiting && !Resting(s.dev) {
      var steps := OwnErrorCanBeMissed(s, actions);
      assert MissesOwnErrorAfter(s, steps);
    } else {
      forall steps | OwnErrorsOnly(steps)
        ensures !MissedError(TakeAll(s, steps))
      {
        if Resting(s.dev) {
          RunKeepsError(s, actions, steps);
        } else {
          RunOnlyReturns(s, actions, steps);
        }
      }
    }
  }

  // ----- what Control is told -----

  /**
   An event is the state Control would read right after it; only a RunWrapper that is late for its run
   announces a RUNNING that has been left, and after an error a wrapper still announces its own state.
   */
  lemma ToldWhatIs(s: System, step: Step)
    requires Inv(s)
    ensures var s' := Take(s, step);
            |s'.events| > |s.events| ==>
              && s'.events[..|s.events|] == s.events && |s'.events| == |s.events| + 1
              && (|| s'.events[|s.events|] == s'.dev.fState
                  || (step == Announce && s.dev.worker.h == RunWrapper && s'.events[|s.events|] == Running)
                  || (step == Announce && s.dev.error && s'.events[|s.events|] == StateOf(s.dev.worker.h)))
  {
  }

  // ----- EXITING is always heard of -----

  /** EXITING without an error is in the queue or in hand, and Control is alone with the device until it has emptied the queue. */
  ghost predicate ExitHeard(s: System) {
    && (s.ctl == Start || s.ctl.HasRead? ==> s.dev.caller.NoCall?)
    && (s.dev.region == Exiting && !s.dev.error ==>
          Exiting in s.events || InHand(s.ctl, Exiting) || s.ctl == Returned)
    && (s.ctl.HasRead? && s.dev.region == Exiting && !s.dev.error ==> s.ctl.next == Exiting)
  }

  lemma DeviceExitHeard(s: System, a: Action)
    requires Inv(s) && SignallingInv(s.dev) && ExitHeard(s)
    ensures ExitHeard(Take(s, Device(a)))
  {
  }

  lemma ControlExitHeard(s: System, step: Step)
    requires Inv(s) && ExitHeard(s) && !step.Device?
    ensures ExitHeard(Take(s, step))
  {
  }

  lemma {:induction false} RunExitHeard(s: System, actions: seq<Action>, steps: seq<Step>)
    requires CanStart(s, actions)
    ensures SignallingInv(TakeAll(s, steps).dev) && ExitHeard(TakeAll(s, steps))
  {
    if steps == [] {
      ReachedInv(actions);
    } else {
      var before, step := TakeAll(s, steps[..|steps| - 1]), steps[|steps| - 1];
      RunExitHeard(s, actions, steps[..|steps| - 1]);
      RunInv(s, actions, steps[..|steps| - 1]);
      SignallingStep(before, step);
      if step.Device? {
        DeviceExitHeard(before, step.a);
      } else {
        ControlExitHeard(before, step);
      }
    }
  }

  /** Control never waits with nothing to come on a device that is EXITING. */
  lemma NeverWaitsOnExiting(s: System, actions: seq<Action>, steps: seq<Step>)
    requires CanStart(s, actions)
    ensures var t := TakeAll(s, steps);
            !(t.ctl == AwaitingEvent && t.events == [] && t.dev.region == Exiting && !t.dev.error)
  {
    RunExitHeard(s, actions, steps);
  }

  // ----- the shutdown that works -----

  /** The device is EXITING without an error, and Control has returned. */
  predicate ShutDown(s: System) {
    s.ctl == Returned && s.dev.region == Exiting && s.dev.caller.NoCall? && !s.dev.error
  }

  ghost predicate ShutsDownAfter(s: System, steps: seq<Step>) {
    ShutDown(TakeAll(s, steps))
  }

  /** Control is about to act on the state the device is in, with no other news; above IDLE it needs the worker. */
  ghost predicate Poised(s: System, region: St) {
    && s.ctl == Deciding(region) && s.events == []
    && s.dev.region == region && s.dev.fState == region && s.dev.caller.NoCall? && !s.dev.error && !s.dev.fWorkerTerminated
    && (region != Idle ==> s.dev.worker == Free && !s.dev.fWorkAvailable && !s.dev.fWorkActive)
  }

  function Below(region: St): St
    requires region == Ready || region == DeviceReady
  {
    if region == Ready then DeviceReady else Idle
  }

  function Resetter(region: St): Handler
    requires region == Ready || region == DeviceReady
  {
    if region == Ready then ResetTaskWrapper else ResetWrapper
  }

  lemma RequestIsPosted(s: System, region: St)
    requires (region == Ready || region == DeviceReady) && Poised(s, region)
    ensures var t := Three(s, Decide, Ask, Device(Finish));
            && t.ctl == InCall && t.events == [] && t.dev.caller.NoCall? && !t.dev.error && !t.dev.fWorkerTerminated
            && t.dev.region == t.dev.fState == StateOf(Resetter(region))
            && t.dev.worker == Free && t.dev.fWorkAvailable && t.dev.fWork.Work? && t.dev.fWork.h == Resetter(region)
  {
  }

  lemma ResetBegins(s: System, h: Handler)
    requires s.ctl == InCall && s.events == [] && s.dev.caller.NoCall? && !s.dev.error && !s.dev.fWorkerTerminated
    requires s.dev.worker == Free && s.dev.fWorkAvailable && s.dev.fWork.Work? && s.dev.fWork.h == h
    requires s.dev.region == s.dev.fState == StateOf(h)
    ensures var t := Three(s, CallDone, Device(Wake), Device(Begin));
            && t.ctl == AwaitingEvent && t.events == [] && t.dev.caller.NoCall? && !t.dev.error && !t.dev.fWorkerTerminated
            && t.dev.worker.Busy? && t.dev.worker.h == h && t.dev.worker.phase == Body && t.dev.region == t.dev.fState == StateOf(h)
  {
  }

  lemma ResetEnds(s: System, region: St)
    requires region == Ready || region == DeviceReady
    requires s.ctl == AwaitingEvent && s.events == [] && s.dev.caller.NoCall? && !s.dev.error && !s.dev.fWorkerTerminated
    requires s.dev.worker.Busy? && s.dev.worker.h == Resetter(region) && s.dev.worker.phase == Body
    requires s.dev.region == s.dev.fState == StateOf(Resetter(region))
    ensures var t := Three(s, Announce, Device(Signal), Device(Complete));
            && t.ctl == AwaitingEvent && t.events == [StateOf(Resetter(region))] && t.dev.caller.NoCall? && !t.dev.error
            && t.dev.worker == Reporting && !t.dev.fWorkAvailable && !t.dev.fWorkActive && !t.dev.fWorkerTerminated
            && t.dev.region == t.dev.fState == Below(region)
  {
  }

  lemma ResetIsHeard(s: System, region: St)
    requires region == Ready || region == DeviceReady
    requires s.ctl == AwaitingEvent && s.events == [StateOf(Resetter(region))] && s.dev.caller.NoCall? && !s.dev.error
    requires s.dev.worker == Reporting && !s.dev.fWorkAvailable && !s.dev.fWorkActive && !s.dev.fWorkerTerminated
    requires s.dev.region == s.dev.fState == Below(region)
    ensures Poised(Three(Three(s, Device(Report), TakeEvent, Decide), TakeEvent, Device(Report), Device(Report)), Below(region))
  {
    var t := Three(s, Device(Report), TakeEvent, Decide);
    assert t.ctl == AwaitingEvent && t.events == [Below(region)];
  }

  lemma EndIsTold(s: System)
    requires Poised(s, Idle)
    ensures var t := Three(s, Decide, Ask, Device(Finish));
            t.ctl == InCall && t.events == [Exiting] && t.dev.region == Exiting && t.dev.caller.NoCall? && !t.dev.error
  {
  }

  lemma EndIsHeard(s: System)
    requires s.ctl == InCall && s.events == [Exiting] && s.dev.region == Exiting && s.dev.caller.NoCall? && !s.dev.error
    ensures ShutDown(Three(s, CallDone, TakeEvent, Decide))
  {
  }

  /** Poised, with these requests accepted so far. */
  ghost predicate PoisedWith(s: System, region: St, accepted: seq<Event>) {
    Poised(s, region) && s.accepted == accepted
  }

  function RequestFor(region: St): Event
    requires region in {Idle, DeviceReady, Ready, Running}
  {
    match region
    case Running => Stop
    case Ready => ResetTask
    case DeviceReady => ResetDevice
    case Idle => End
  }

  lemma AcceptsRequest(s: System, region: St)
    requires region in {Idle, DeviceReady, Ready} && Poised(s, region)
    ensures Three(s, Decide, Ask, Device(Finish)).accepted == s.accepted + [RequestFor(region)]
  {
  }

  lemma AsksNothing(s: System, a: Step, b: Step, c: Step)
    requires !a.Ask? && !b.Ask? && !c.Ask?
    ensures Three(s, a, b, c).accepted == s.accepted
  {
  }

  /** One level down by the one request for it. */
  lemma OneRequestDown(s: System, region: St, accepted: seq<Event>) returns (t: System, steps: seq<Step>)
    requires (region == Ready || region == DeviceReady) && PoisedWith(s, region, accepted)
    ensures t == TakeAll(s, steps) && PoisedWith(t, Below(region), accepted + [RequestFor(region)])
  {
    var s1 := Three(s, Decide, Ask, Device(Finish));
    RequestIsPosted(s, region);
    AcceptsRequest(s, region);
    var s2 := Three(s1, CallDone, Device(Wake), Device(Begin));
    ResetBegins(s1, Resetter(region));
    AsksNothing(s1, CallDone, Device(Wake), Device(Begin));
    var s3 := Three(s2, Announce, Device(Signal), Device(Complete));
    ResetEnds(s2, region);
    AsksNothing(s2, Announce, Device(Signal), Device(Complete));
    var s4 := Three(s3, Device(Report), TakeEvent, Decide);
    ResetIsHeard(s3, region);
    AsksNothing(s3, Device(Report), TakeEvent, Decide);
    t := Three(s4, TakeEvent, Device(Report), Device(Report));
    AsksNothing(s4, TakeEvent, Device(Report), Device(Report));
    steps := FiveThrees(s, s1, s2, s3, s4);
  }

  lemma FiveThrees(s: System, s1: System, s2: System, s3: System, s4: System) returns (steps: seq<Step>)
    requires s1 == Three(s, Decide, Ask, Device(Finish)) && s2 == Three(s1, CallDone, Device(Wake), Device(Begin))
    requires s3 == Three(s2, Announce, Device(Signal), Device(Complete)) && s4 == Three(s3, Device(Report), TakeEvent, Decide)
    ensures TakeAll(s, steps) == Three(s4, TakeEvent, Device(Report), Device(Report))
  {
    ThreeSteps(s, Decide, Ask, Device(Finish));
    steps := [Decide, Ask, Device(Finish)];
    ThreeMore(s, steps, CallDone, Device(Wake), Device(Begin));
    steps := steps + [CallDone, Device(Wake), Device(Begin)];
    ThreeMore(s, steps, Announce, Device(Signal), Device(Complete));
    steps := steps + [Announce, Device(Signal), Device(Complete)];
    ThreeMore(s, steps, Device(Report), TakeEvent, Decide);
    steps := steps + [Device(Report), TakeEvent, Decide];
    ThreeMore(s, steps, TakeEvent, Device(Report), Device(Report));
    steps := steps + [TakeEvent, Device(Report), Device(Report)];
  }

  lemma EndIsAccepted(s: System, accepted: seq<Event>) returns (t: System, steps: seq<Step>)
    requires PoisedWith(s, Idle, accepted)
    ensures t == TakeAll(s, steps) && ShutDown(t) && t.accepted == accepted + [End]
  {
    var s1 := Three(s, Decide, Ask, Device(Finish));
    EndIsTold(s);
    AcceptsRequest(s, Idle);
    EndIsHeard(s1);
    AsksNothing(s1, CallDone, TakeEvent, Decide);
    ThreeSteps(s, Decide, Ask, Device(Finish));
    steps := [Decide, Ask, Device(Finish)];
    ThreeMore(s, steps, CallDone, TakeEvent, Decide);
    steps := steps + [CallDone, TakeEvent, Decide];
    t := TakeAll(s, steps);
  }

  lemma PoisedShutsDown(s: System, start: seq<Step>, region: St) returns (steps: seq<Step>)
    requires region in {Idle, DeviceReady, Ready} && Poised(TakeAll(s, start), region)
    ensures ShutsDownAfter(s, steps)
  {
    var t, down := TakeAll(s, start), [];
    steps := start;
    if region == Ready {
      t, down := OneRequestDown(t, Ready, t.accepted);
      StepsThen(s, steps, down);
      steps := steps + down;
    }
    if region != Idle {
      t, down := OneRequestDown(t, DeviceReady, t.accepted);
      StepsThen(s, steps, down);
      steps := steps + down;
    }
    t, down := EndIsAccepted(t, t.accepted);
    StepsThen(s, steps, down);
    steps := steps + down;
  }

  /** Before it starts, the device at rest, or in IDLE. */
  ghost predicate Quiet(s: System) {
    && s.ctl == Start && !s.dev.error && s.dev.caller.NoCall? && !s.dev.fWorkerTerminated
    && s.dev.region in {Idle, DeviceReady, Ready} && s.dev.fState == s.dev.region
    && (s.dev.region != Idle ==> s.dev.worker == Free && !s.dev.fWorkAvailable && !s.dev.fWorkActive)
  }

  lemma QuietIsPoised(s: System)
    requires Quiet(s)
    ensures Poised(Three(s, ReadState, EmptyQueue, TakeEvent), s.dev.region)
  {
  }

  /** A device in or about to be in a handler, and the device after it. */
  ghost predicate Working(s: System) {
    && s.ctl == Start && DeviceInv(s.dev) && SignallingInv(s.dev) && RunningInv(s.dev)
    && !s.dev.error && s.dev.caller.NoCall? && s.dev.region != Exiting && !s.dev.worker.Failed?
  }

  lemma HandlerRunsOut(s: System)
    requires Working(s)
    ensures var t := Three(s, Device(CheckRunning), Device(Signal), Device(Complete));
            Working(t) && !t.dev.worker.Busy? && (s.dev.worker.Armed? ==> t.dev.worker.Armed?)
            && (!s.dev.worker.Busy? ==> t == s) && (s.dev.worker.Busy? ==> t.dev.worker == Reporting && !t.dev.fWorkAvailable)
  {
    if s.dev.worker.Busy? {
      RunsOutDevice(s.dev);
      BusyRunsOut(s.dev);
    } else {
      NoHandlerToRun(s);
    }
  }

  lemma NoHandlerToRun(s: System)
    requires !s.dev.worker.Busy?
    ensures Three(s, Device(CheckRunning), Device(Signal), Device(Complete)) == s
  {
  }

  lemma BusyRunsOut(dev: State)
    requires DeviceInv(dev) && SignallingInv(dev) && !dev.error && dev.caller.NoCall? && dev.region != Exiting && dev.worker.Busy?
    ensures var d := Do(Do(Do(dev, CheckRunning), Signal), Complete);
            && d.worker == Reporting && !d.fWorkAvailable && !d.error && d.caller.NoCall? && d.region != Exiting
  {
  }

  lemma RunsOutDevice(dev: State)
    requires DeviceInv(dev) && SignallingInv(dev) && RunningInv(dev)
    ensures var d := Do(Do(Do(dev, CheckRunning), Signal), Complete);
            DeviceInv(d) && SignallingInv(d) && RunningInv(d)
  {
    DeviceKeeps(dev, CheckRunning);
    DeviceKeeps(Do(dev, CheckRunning), Signal);
    DeviceKeeps(Do(Do(dev, CheckRunning), Signal), Complete);
  }

  lemma DeviceKeeps(dev: State, a: Action)
    requires DeviceInv(dev) && SignallingInv(dev) && RunningInv(dev) && !a.Request?
    ensures var d := Do(dev, a); DeviceInv(d) && SignallingInv(d) && RunningInv(d)
  {
    StepFlags(dev, a);
    StepPlace(dev, a);
    NeverPausedStep(dev, a);
    StepSignalling(dev, a);
    StepRunning(dev, a);
  }

  lemma NextOneBegins(s: System)
    requires Working(s) && !s.dev.worker.Busy?
    ensures var t := Three(s, Device(Report), Device(Wake), Device(Begin));
            Working(t) && (t.dev.worker.Busy? || (t.dev.worker == Free && !t.dev.fWorkAvailable))
  {
    DeviceKeeps(s.dev, Report);
    DeviceKeeps(Do(s.dev, Report), Wake);
    DeviceKeeps(Do(Do(s.dev, Report), Wake), Begin);
  }

  lemma RestsAtLast(s: System)
    requires Working(s) && ((s.dev.worker == Reporting && !s.dev.fWorkAvailable) || (s.dev.worker == Free && !s.dev.fWorkAvailable))
    ensures Quiet(Three(s, Device(Report), Device(Report), Device(Report)))
  {
  }

  /** Left alone, the worker does what there is to do and comes to rest. */
  lemma ComesToRest(s: System) returns (steps: seq<Step>)
    requires Working(s)
    ensures Quiet(TakeAll(s, steps))
  {
    ThreeSteps(s, Device(CheckRunning), Device(Signal), Device(Complete));
    HandlerRunsOut(s);
    steps := [Device(CheckRunning), Device(Signal), Device(Complete)];
    ThreeMore(s, steps, Device(Report), Device(Wake), Device(Begin));
    NextOneBegins(TakeAll(s, steps));
    steps := steps + [Device(Report), Device(Wake), Device(Begin)];
    ThreeMore(s, steps, Device(CheckRunning), Device(Signal), Device(Complete));
    HandlerRunsOut(TakeAll(s, steps));
    steps := steps + [Device(CheckRunning), Device(Signal), Device(Complete)];
    ThreeMore(s, steps, Device(Report), Device(Report), Device(Report));
    RestsAtLast(TakeAll(s, steps));
    steps := steps + [Device(Report), Device(Report), Device(Report)];
  }

  lemma ExitingReturns(s: System)
    requires s.ctl == Start && s.dev.region == Exiting && s.dev.fState == Exiting && s.dev.caller.NoCall? && !s.dev.error
    ensures ShutDown(Three(s, ReadState, EmptyQueue, Decide))
  {
  }

  lemma CanShutDown(s: System, actions: seq<Action>) returns (steps: seq<Step>)
    requires CanStart(s, actions) && !s.dev.error && (s.dev.region in {Idle, Exiting} || !s.dev.worker.Failed?)
    ensures ShutsDownAfter(s, steps)
  {
    ReachedInv(actions);
    NoPauseRequested(actions);
    if s.dev.region == Exiting {
      ThreeSteps(s, ReadState, EmptyQueue, Decide);
      ExitingReturns(s);
      steps := [ReadState, EmptyQueue, Decide];
    } else {
      steps := [];
      if s.dev.region != Idle {
        steps := ComesToRest(s);
      }
      var t := TakeAll(s, steps);
      assert Quiet(t);
      ThreeMore(s, steps, ReadState, EmptyQueue, TakeEvent);
      QuietIsPoised(t);
      steps := PoisedShutsDown(s, steps + [ReadState, EmptyQueue, TakeEvent], t.dev.region);
    }
  }

  /** A dead worker leaves a device above IDLE there. */
  ghost predicate StaysUp(dev: State) {
    dev.error || (dev.worker.Failed? && dev.region !in {Idle, Exiting} && (dev.caller.Call? ==> dev.caller.row.target !in {Idle, Exiting}))
  }

  lemma StaysUpStep(s: System, step: Step)
    requires Inv(s) && StaysUp(s.dev)
    ensures StaysUp(Take(s, step).dev)
  {
  }

  lemma {:induction false} RunStaysUp(s: System, actions: seq<Action>, steps: seq<Step>)
    requires CanStart(s, actions) && StaysUp(s.dev)
    ensures StaysUp(TakeAll(s, steps).dev)
  {
    if steps != [] {
      RunStaysUp(s, actions, steps[..|steps| - 1]);
      RunInv(s, actions, steps[..|steps| - 1]);
      StaysUpStep(TakeAll(s, steps[..|steps| - 1]), steps[|steps| - 1]);
    }
  }

  /**
   The sequence can take the device all the way to EXITING and return, exactly when it starts without an
   error and with a worker that has not failed, which in IDLE and EXITING is not needed any more.
   */
  lemma ShutsDownExactly(s: System, actions: seq<Action>)
    requires CanStart(s, actions)
    ensures (exists steps :: ShutsDownAfter(s, steps))
       <==> !s.dev.error && (s.dev.region in {Idle, Exiting} || !s.dev.worker.Failed?)
  {
    if !s.dev.error && (s.dev.region in {Idle, Exiting} || !s.dev.worker.Failed?) {
      var steps := CanShutDown(s, actions);
      assert ShutsDownAfter(s, steps);
    } else {
      forall steps
        ensures !ShutsDownAfter(s, steps)
      {
        RunStaysUp(s, actions, steps);
      }
    }
  }

  // ----- the whole sequence of requests -----

  /** A device with RunWrapper at work, which the sequence finds in RUNNING. */
  ghost predicate RunningAtWork(s: System) {
    AtWork(s, Start) && s.dev.region == Running && s.dev.worker.phase == Body && s.dev.fWorkActive && s.accepted == []
  }

  /** STOP is accepted while the handler runs, which then sees it and ends. */
  lemma StopIsAccepted(s: System)
    requires RunningAtWork(s)
    ensures var t := Three(Three(s, ReadState, EmptyQueue, Decide), Ask, Device(CheckRunning), Device(Complete));
            && t.ctl == InCall && t.events == [] && t.accepted == [Stop] && !t.dev.error && !t.dev.fWorkerTerminated
            && t.dev.caller.Call? && t.dev.caller.row == Row(Ready, StopAndWait) && t.dev.fState == Ready
            && t.dev.worker == Reporting && !t.dev.fWorkAvailable && !t.dev.fWorkActive
  {
    var t := Three(s, ReadState, EmptyQueue, Decide);
    assert t.ctl == Asking(Stop) && t.events == [] && t.dev == s.dev;
  }

  lemma StopIsTold(s: System)
    requires s.ctl == InCall && s.events == [] && s.accepted == [Stop] && !s.dev.error && !s.dev.fWorkerTerminated
    requires s.dev.caller.Call? && s.dev.caller.row == Row(Ready, StopAndWait) && s.dev.fState == Ready
    requires s.dev.worker == Reporting && !s.dev.fWorkAvailable && !s.dev.fWorkActive
    ensures ToldReady(Three(s, Device(Finish), Device(Report), CallDone))
  {
  }

  ghost predicate ToldReady(s: System) {
    && s.ctl == AwaitingEvent && s.events == [Ready] && s.accepted == [Stop]
    && s.dev.region == Ready && s.dev.fState == Ready && s.dev.caller.NoCall? && !s.dev.error && !s.dev.fWorkerTerminated
    && s.dev.worker == Free && !s.dev.fWorkAvailable && !s.dev.fWorkActive
  }

  lemma StopIsHeard(s: System)
    requires ToldReady(s)
    ensures PoisedWith(Three(s, TakeEvent, Device(Report), Device(Report)), Ready, [Stop])
  {
  }

  lemma StopsRunning(s: System) returns (t: System, steps: seq<Step>)
    requires RunningAtWork(s)
    ensures t == TakeAll(s, steps) && PoisedWith(t, Ready, [Stop])
  {
    ThreeSteps(s, ReadState, EmptyQueue, Decide);
    steps := [ReadState, EmptyQueue, Decide];
    ThreeMore(s, steps, Ask, Device(CheckRunning), Device(Complete));
    steps := steps + [Ask, Device(CheckRunning), Device(Complete)];
    StopIsAccepted(s);
    StopIsTold(TakeAll(s, steps));
    ThreeMore(s, steps, Device(Finish), Device(Report), CallDone);
    steps := steps + [Device(Finish), Device(Report), CallDone];
    StopIsHeard(TakeAll(s, steps));
    ThreeMore(s, steps, TakeEvent, Device(Report), Device(Report));
    steps := steps + [TakeEvent, Device(Report), Device(Report)];
    t := TakeAll(s, steps);
  }

  /** A device with its run at work can be taken down by the four requests in turn: STOP, RESET_TASK, RESET_DEVICE, END. */
  lemma FourRequestsTakeItDown(s: System) returns (steps: seq<Step>)
    requires RunningAtWork(s)
    ensures ShutsDownAfter(s, steps) && TakeAll(s, steps).accepted == [Stop, ResetTask, ResetDevice, End]
  {
    var s1, t1 := StopsRunning(s);
    var s2, t2 := OneRequestDown(s1, Ready, [Stop]);
    var s3, t3 := OneRequestDown(s2, DeviceReady, [Stop] + [ResetTask]);
    var s4, t4 := EndIsAccepted(s3, [Stop] + [ResetTask] + [ResetDevice]);
    StepsThen(s, t1, t2);
    StepsThen(s, t1 + t2, t3);
    StepsThen(s, t1 + t2 + t3, t4);
    steps := t1 + t2 + t3 + t4;
    assert [Stop] + [ResetTask] + [ResetDevice] + [End] == [Stop, ResetTask, ResetDevice, End];
  }
}
