/**
 `fair::mq::StateMachine`: transitions are checked against the last state in a queue and entered
 later by `Run`, while an orthogonal error machine shares the same queue. The reference is the
 plain machine that applies each accepted transition at once.
 */
module QueuedStateMachine {
  import opened Wrappers

  datatype St =
    | Ok | Error
    | Idle | InitializingDevice | DeviceReady | InitializingTask | Ready
    | Running | ResettingTask | ResettingDevice | Exiting

  datatype Transition = InitDevice | InitTask | Run | Stop | ResetTask | ResetDevice | End | ErrorFound | Automatic

  /** None where the source throws IllegalTransition. */
  function Next(s: St, t: Transition): Option<St> {
    match (s, t)
    case (Idle, InitDevice) => Some(InitializingDevice)
    case (Idle, End) => Some(Exiting)
    case (InitializingDevice, Automatic) => Some(DeviceReady)
    case (DeviceReady, InitTask) => Some(InitializingTask)
    case (DeviceReady, ResetDevice) => Some(ResettingDevice)
    case (InitializingTask, Automatic) => Some(Ready)
    case (Ready, Run) => Some(Running)
    case (Ready, ResetTask) => Some(ResettingTask)
    case (Running, Stop) => Some(Ready)
    case (ResettingTask, Automatic) => Some(DeviceReady)
    case (ResettingDevice, Automatic) => Some(Idle)
    case (Ok, ErrorFound) => Some(Error)
    case _ => None
  }

  /** Where the thread in `Run` is: between the two locked stretches it has popped, then emitted. */
  datatype Pc = Stopped | Waiting | Popped(last: St, regular: bool) | Emitted

  /**
   The fields, the thread in `Run`, and the history: accepted regular transitions, regular
   states entered, and the (new, last) pairs given to StateChange subscribers for regular moves.
   */
  datatype State = State(fState: St, fErrorState: St, fNextStates: seq<St>, pc: Pc,
                         accepted: seq<Transition>, entered: seq<St>, emitted: seq<(St, St)>)

  datatype Action = ChangeState(t: Transition) | StartRun | Pop | Emit | Check | Reset

  const INITIAL: State := State(Idle, Ok, [], Stopped, [], [], [])

  function LastState(s: State, t: Transition): St {
    if t == ErrorFound then s.fErrorState
    else if s.fNextStates == [] then s.fState
    else s.fNextStates[|s.fNextStates| - 1]
  }

  function Changed(s: State, t: Transition): State {
    match Next(LastState(s, t), t)
    case None => s
    case Some(next) =>
      s.(fNextStates := s.fNextStates + [next],
         accepted := if t == ErrorFound then s.accepted else s.accepted + [t])
  }

  function Advanced(s: State): State
    requires s.fNextStates != []
  {
    var front, rest := s.fNextStates[0], s.fNextStates[1..];
    if front == Error then
      s.(fErrorState := Error, fNextStates := rest, pc := Popped(s.fErrorState, false))
    else
      s.(fState := front, fNextStates := rest, pc := Popped(s.fState, true), entered := s.entered + [front])
  }

  /** One atomic action of some thread; one that is not enabled leaves the state alone. */
  function Do(s: State, a: Action): State {
    match a
    case ChangeState(t) => Changed(s, t)
    case StartRun => if s.pc == Stopped then s.(pc := Waiting) else s
    case Pop => if s.pc == Waiting && s.fNextStates != [] then Advanced(s) else s
    case Emit =>
      if s.pc.Popped?
      then s.(pc := Emitted, emitted := if s.pc.regular then s.emitted + [(s.fState, s.pc.last)] else s.emitted)
      else s
    case Check =>
      if s.pc == Emitted
      then s.(pc := if s.fState == Exiting || s.fErrorState == Error then Stopped else Waiting) else s
    case Reset =>
      s.(fState := Idle, fErrorState := Ok, fNextStates := [], accepted := [], entered := [], emitted := [])
  }

  function DoAll(s: State, actions: seq<Action>): State {
    if actions == [] then s
    else Do(DoAll(s, actions[..|actions| - 1]), actions[|actions| - 1])
  }

  // ----- the plain machine -----

  function Last(states: seq<St>): St {
    if states == [] then Idle else states[|states| - 1]
  }

  /** The states the plain machine, started in Idle, goes through on `ts`; None if it refuses one. */
  function Walk(ts: seq<Transition>): Option<seq<St>> {
    if ts == [] then Some([])
    else match Walk(ts[..|ts| - 1])
      case None => None
      case Some(w) =>
        match Next(Last(w), ts[|ts| - 1])
        case None => None
        case Some(next) => Some(w + [next])
  }

  predicate IsWalk(ts: seq<Transition>, states: seq<St>) {
    Walk(ts).Some? && Walk(ts).value == states
  }

  ghost predicate RegularUpToExiting(w: seq<St>) {
    forall i | 0 <= i < |w| :: w[i] != Error && w[i] != Ok && (w[i] == Exiting ==> i == |w| - 1)
  }

  lemma {:induction false} WalkEndsAtExiting(ts: seq<Transition>)
    ensures Walk(ts).Some? ==> |Walk(ts).value| == |ts| && RegularUpToExiting(Walk(ts).value)
  {
    if ts != [] {
      WalkEndsAtExiting(ts[..|ts| - 1]);
    }
  }

  // ----- the shape of the queue -----

  /** The queue without its error entries. */
  function Regular(q: seq<St>): (r: seq<St>)
    ensures forall x | x in r :: x in q && x != Error
  {
    if q == [] then []
    else Regular(q[..|q| - 1]) + if q[|q| - 1] == Error then [] else [q[|q| - 1]]
  }

  lemma {:induction false} RegularFront(q: seq<St>)
    requires q != []
    ensures Regular(q) == (if q[0] == Error then [] else [q[0]]) + Regular(q[1..])
  {
    if |q| > 1 {
      RegularFront(q[..|q| - 1]);
      assert q[1..][..|q| - 2] == q[..|q| - 1][1..];
    }
  }

  ghost predicate ErrorsLast(q: seq<St>) {
    forall i, j | 0 <= i < j < |q| && q[i] == Error :: q[j] == Error
  }

  lemma {:induction false} NoErrorsAllRegular(q: seq<St>)
    requires forall i | 0 <= i < |q| :: q[i] != Error
    ensures Regular(q) == q
  {
    if q != [] {
      var front, last := q[..|q| - 1], q[|q| - 1];
      NoErrorsAllRegular(front);
      assert last != Error;
      assert front + [last] == q;
    }
  }

  lemma {:induction false} ErrorsOnlyNoneRegular(q: seq<St>)
    requires forall i | 0 <= i < |q| :: q[i] == Error
    ensures Regular(q) == []
  {
    if q != [] {
      ErrorsOnlyNoneRegular(q[..|q| - 1]);
    }
  }

  /** The queue is the rest of the plain machine's walk, with error entries behind it. */
  ghost predicate Inv(s: State) {
    && ErrorsLast(s.fNextStates)
    && IsWalk(s.accepted, s.entered + Regular(s.fNextStates))
    && s.fState == Last(s.entered)
    && (s.fErrorState == Ok || s.fErrorState == Error)
  }

  lemma WalkMore(ts: seq<Transition>, states: seq<St>, t: Transition, next: St)
    requires IsWalk(ts, states) && Next(Last(states), t) == Some(next)
    ensures IsWalk(ts + [t], states + [next])
  {
    assert (ts + [t])[..|ts|] == ts;
  }

  lemma RegularQueue(s: State, t: Transition)
    requires Inv(s) && t != ErrorFound && Next(LastState(s, t), t).Some?
    ensures Regular(s.fNextStates) == s.fNextStates && Last(s.entered + s.fNextStates) == LastState(s, t)
  {
    var q := s.fNextStates;
    assert q == [] || q[|q| - 1] != Error;
    assert forall i | 0 <= i < |q| :: q[i] != Error;
    NoErrorsAllRegular(q);
    assert q == [] ==> s.entered + q == s.entered;
  }

  lemma NextIsRegular(st: St, t: Transition, next: St)
    requires t != ErrorFound && Next(st, t) == Some(next)
    ensures next != Error
  {
  }

  lemma RegularMore(q: seq<St>, next: St)
    ensures Regular(q + [next]) == Regular(q) + if next == Error then [] else [next]
  {
    assert (q + [next])[..|q|] == q;
  }

  lemma WalkAndQueueMore(accepted: seq<Transition>, entered: seq<St>, q: seq<St>, t: Transition, next: St)
    requires Regular(q) == q && next != Error
    requires IsWalk(accepted, entered + q) && Next(Last(entered + q), t) == Some(next)
    ensures ErrorsLast(q + [next]) && IsWalk(accepted + [t], entered + Regular(q + [next]))
  {
    WalkMore(accepted, entered + q, t, next);
    RegularMore(q, next);
    assert forall i | 0 <= i < |q| :: q[i] in Regular(q);
    assert entered + (q + [next]) == entered + q + [next];
  }

  lemma RegularChangeInv(s: State, t: Transition, next: St)
    requires Inv(s) && t != ErrorFound && Next(LastState(s, t), t) == Some(next)
    ensures Inv(Changed(s, t))
  {
    RegularQueue(s, t);
    NextIsRegular(LastState(s, t), t, next);
    WalkAndQueueMore(s.accepted, s.entered, s.fNextStates, t, next);
  }

  /** A regular transition is accepted only off a queue without errors, whose end is the end of the walk. */
  lemma ChangedInv(s: State, t: Transition)
    requires Inv(s)
    ensures Inv(Changed(s, t))
  {
    var last := Next(LastState(s, t), t);
    if last.Some? {
      if t == ErrorFound {
        RegularMore(s.fNextStates, Error);
      } else {
        RegularChangeInv(s, t, last.value);
      }
    }
  }

  lemma AdvancedInv(s: State)
    requires Inv(s) && s.fNextStates != []
    ensures Inv(Advanced(s))
  {
    var q := s.fNextStates;
    RegularFront(q);
    if q[0] == Error {
      ErrorsOnlyNoneRegular(q[1..]);
    } else {
      assert s.entered + ([q[0]] + Regular(q[1..])) == s.entered + [q[0]] + Regular(q[1..]);
    }
  }

  lemma StepInv(s: State, a: Action)
    requires Inv(s)
    ensures Inv(Do(s, a))
  {
    match a
    case ChangeState(t) => ChangedInv(s, t);
    case Pop => if s.fNextStates != [] { AdvancedInv(s); }
    case _ =>
  }

  lemma {:induction false} DoAllInv(s: State, actions: seq<Action>)
    requires Inv(s)
    ensures Inv(DoAll(s, actions))
  {
    if actions != [] {
      DoAllInv(s, actions[..|actions| - 1]);
      StepInv(DoAll(s, actions[..|actions| - 1]), actions[|actions| - 1]);
    }
  }

  /**
   In every interleaving, what `Run` has entered followed by the regular states still queued is
   the walk the plain machine makes on the accepted transitions, in the order of acceptance.
   */
  lemma QueueRefinesPlainMachine(actions: seq<Action>)
    ensures var s := DoAll(INITIAL, actions);
            && IsWalk(s.accepted, s.entered + Regular(s.fNextStates))
            && s.fState == Last(s.entered)
            && ErrorsLast(s.fNextStates)
  {
    DoAllInv(INITIAL, actions);
  }

  // ----- Exiting -----

  ghost predicate NoReset(actions: seq<Action>) {
    forall i | 0 <= i < |actions| :: actions[i] != Reset
  }

  ghost predicate ExitingQueued(s: State) {
    Exiting in s.entered + Regular(s.fNextStates)
  }

  lemma ExitingRefusesAll(s: State, t: Transition)
    requires Inv(s) && ExitingQueued(s) && t != ErrorFound
    ensures Next(LastState(s, t), t) == None
  {
    WalkEndsAtExiting(s.accepted);
    var q := s.fNextStates;
    var w := s.entered + Regular(q);
    assert Last(w) == Exiting;
    assert q == [] || q[|q| - 1] == Error || Last(Regular(q)) == q[|q| - 1];
  }

  lemma {:induction false} AppendActions(s: State, first: seq<Action>, more: seq<Action>)
    ensures DoAll(s, first + more) == DoAll(DoAll(s, first), more)
  {
    if more == [] {
      assert first + more == first;
    } else {
      AppendActions(s, first, more[..|more| - 1]);
      assert (first + more)[..|first + more| - 1] == first + more[..|more| - 1];
    }
  }

  lemma {:induction false} ExitingStays(s: State, more: seq<Action>)
    requires Inv(s) && ExitingQueued(s) && NoReset(more)
    ensures DoAll(s, more).accepted == s.accepted && ExitingQueued(DoAll(s, more))
  {
    if more != [] {
      var n := |more| - 1;
      var front := more[..n];
      assert NoReset(front);
      ExitingStays(s, front);
      DoAllInv(s, front);
      DoAllInv(s, more);
      var before := DoAll(s, front);
      if more[n].ChangeState? && more[n].t != ErrorFound {
        ExitingRefusesAll(before, more[n].t);
      }
      assert before.accepted == DoAll(s, more).accepted;
    }
  }

  /** Once Exiting is queued no regular transition is accepted again. */
  lemma ExitingIsFinal(actions: seq<Action>, more: seq<Action>)
    requires NoReset(more) && ExitingQueued(DoAll(INITIAL, actions))
    ensures DoAll(INITIAL, actions + more).accepted == DoAll(INITIAL, actions).accepted
  {
    DoAllInv(INITIAL, actions);
    AppendActions(INITIAL, actions, more);
    ExitingStays(DoAll(INITIAL, actions), more);
  }

  /** When `Run` has entered Exiting it has entered every accepted state, and no regular one is left behind. */
  lemma NothingLeftBehind(actions: seq<Action>)
    requires DoAll(INITIAL, actions).fState == Exiting
    ensures var s := DoAll(INITIAL, actions);
            Regular(s.fNextStates) == [] && IsWalk(s.accepted, s.entered)
  {
    DoAllInv(INITIAL, actions);
    var s := DoAll(INITIAL, actions);
    WalkEndsAtExiting(s.accepted);
    var w := s.entered + Regular(s.fNextStates);
    assert w[|s.entered| - 1] == Exiting;
    assert s.entered + [] == s.entered;
  }

  // ----- the chain seen by subscribers -----

  function News(pairs: seq<(St, St)>): seq<St> {
    seq(|pairs|, i requires 0 <= i < |pairs| => pairs[i].0)
  }

  /** Each pair's last state is the new state of the pair before it, Idle for the first. */
  ghost predicate Chained(pairs: seq<(St, St)>) {
    pairs == [] || (var front := pairs[..|pairs| - 1]; Chained(front) && pairs[|pairs| - 1].1 == Last(News(front)))
  }

  /** The pairs already given out, with the one the thread in `Run` is about to give out. */
  function Pairs(s: State): seq<(St, St)> {
    s.emitted + if s.pc.Popped? && s.pc.regular then [(s.fState, s.pc.last)] else []
  }

  ghost predicate PairsFollow(s: State) {
    Chained(Pairs(s)) && News(Pairs(s)) == s.entered && s.fState == Last(s.entered)
  }

  lemma EnteredFollows(s: State)
    requires PairsFollow(s) && s.pc == Waiting && s.fNextStates != [] && s.fNextStates[0] != Error
    ensures PairsFollow(Advanced(s))
  {
    var s' := Advanced(s);
    var pair := (s'.fState, s.fState);
    assert Pairs(s) == s.emitted && Pairs(s') == s.emitted + [pair];
    assert (s.emitted + [pair])[..|s.emitted|] == s.emitted;
    assert News(s.emitted + [pair]) == News(s.emitted) + [pair.0];
  }

  lemma StepFollows(s: State, a: Action)
    requires PairsFollow(s) && a != Reset
    ensures PairsFollow(Do(s, a))
  {
    var s' := Do(s, a);
    if a == Pop && s.pc == Waiting && s.fNextStates != [] && s.fNextStates[0] != Error {
      EnteredFollows(s);
    } else {
      assert Pairs(s') == Pairs(s);
    }
  }

  lemma {:induction false} PairsFollowEntered(actions: seq<Action>)
    requires NoReset(actions)
    ensures PairsFollow(DoAll(INITIAL, actions))
  {
    if actions != [] {
      PairsFollowEntered(actions[..|actions| - 1]);
      StepFollows(DoAll(INITIAL, actions[..|actions| - 1]), actions[|actions| - 1]);
    }
  }

  /** The regular (new, last) pairs subscribers see form one unbroken chain from Idle through the entered states. */
  lemma SubscribersSeeOneChain(actions: seq<Action>)
    requires NoReset(actions)
    ensures var s := DoAll(INITIAL, actions);
            && Chained(s.emitted)
            && |s.entered| - 1 <= |s.emitted| <= |s.entered|
            && News(s.emitted) == s.entered[..|s.emitted|]
  {
    PairsFollowEntered(actions);
    var s := DoAll(INITIAL, actions);
    assert |News(Pairs(s))| == |Pairs(s)|;
    assert s.emitted == Pairs(s) || s.emitted == Pairs(s)[..|Pairs(s)| - 1];
    forall i | 0 <= i < |s.emitted| ensures News(s.emitted)[i] == s.entered[i] {
      assert News(Pairs(s))[i] == Pairs(s)[i].0 == s.emitted[i].0;
    }
  }

  // ----- what is accepted -----

  lemma PlainRefuses(ts: seq<Transition>, states: seq<St>, t: Transition)
    requires IsWalk(ts, states) && Next(Last(states), t) == None
    ensures Walk(ts + [t]) == None
  {
    assert (ts + [t])[..|ts|] == ts;
  }

  lemma NoErrorQueued(s: State, t: Transition)
    requires Inv(s) && t != ErrorFound && Error !in s.fNextStates
    ensures Regular(s.fNextStates) == s.fNextStates && Last(s.entered + s.fNextStates) == LastState(s, t)
  {
    NoErrorsAllRegular(s.fNextStates);
    assert s.fNextStates == [] ==> s.entered + s.fNextStates == s.entered;
  }

  /**
   In every interleaving, with no error queued, a transition is accepted exactly when the plain machine takes it
   after all those accepted before, however many of them are still queued; refused, it changes nothing.
   */
  lemma AcceptsWhatPlainMachineDoes(actions: seq<Action>, t: Transition)
    requires t != ErrorFound && Error !in DoAll(INITIAL, actions).fNextStates
    ensures var s, s' := DoAll(INITIAL, actions), Do(DoAll(INITIAL, actions), ChangeState(t));
            && (Walk(s.accepted + [t]).Some? ==> s'.accepted == s.accepted + [t] && |s'.fNextStates| == |s.fNextStates| + 1)
            && (Walk(s.accepted + [t]).None? ==> s' == s)
  {
    DoAllInv(INITIAL, actions);
    var s := DoAll(INITIAL, actions);
    NoErrorQueued(s, t);
    var next := Next(LastState(s, t), t);
    if next.Some? {
      WalkMore(s.accepted, s.entered + s.fNextStates, t, next.value);
    } else {
      PlainRefuses(s.accepted, s.entered + s.fNextStates, t);
    }
  }

  /** Behind a queued error nothing regular is accepted any more. */
  lemma NothingBehindError(s: State, t: Transition)
    requires t != ErrorFound && s.fNextStates != [] && s.fNextStates[|s.fNextStates| - 1] == Error
    ensures Do(s, ChangeState(t)) == s
  {
  }

  /** An error is queued whatever the regular state, until the machine has entered one. */
  lemma ErrorIsQueued(s: State)
    requires s.fErrorState == Ok || s.fErrorState == Error
    ensures Do(s, ChangeState(ErrorFound))
         == if s.fErrorState == Ok then s.(fNextStates := s.fNextStates + [Error]) else s
  {
  }

  // ----- where the loop stops, and that it gets there -----

  ghost predicate Over(s: State) {
    s.fState == Exiting || s.fErrorState == Error
  }

  ghost predicate StartedOnce(actions: seq<Action>) {
    forall i, j | 0 <= i < j < |actions| && actions[i] == StartRun :: actions[j] != StartRun
  }

  lemma {:induction false} NotStartedStays(actions: seq<Action>)
    requires StartRun !in actions && NoReset(actions)
    ensures var s := DoAll(INITIAL, actions); s.pc == Stopped && s.fState == Idle && s.fErrorState == Ok
  {
    if actions != [] {
      NotStartedStays(actions[..|actions| - 1]);
    }
  }

  /** A loop started once, between two rounds: it has stopped if the machine has got to Exiting or Error, and goes on if not. */
  lemma {:induction false} StopsExactly(actions: seq<Action>)
    requires StartedOnce(actions) && NoReset(actions) && StartRun in actions
    ensures var s := DoAll(INITIAL, actions);
            && (s.pc == Stopped <==> Over(s) && s.pc != Emitted && !s.pc.Popped?)
            && (s.pc == Waiting ==> !Over(s))
  {
    var n := |actions| - 1;
    var front := actions[..n];
    assert NoReset(front) && StartedOnce(front);
    if StartRun in front {
      assert actions[n] != StartRun;
      StopsExactly(front);
    } else {
      NotStartedStays(front);
    }
  }

  lemma ThreeActions(s: State, a: Action, b: Action, c: Action)
    ensures DoAll(s, [a, b, c]) == Do(Do(Do(s, a), b), c)
  {
    assert [a, b, c][..2] == [a, b] && [a, b][..1] == [a] && [a][..0] == [];
    assert DoAll(s, [a]) == Do(s, a);
    assert DoAll(s, [a, b]) == Do(Do(s, a), b);
  }

  /** One round of the loop enters the first queued state, and tells of it with the state it left. */
  lemma RoundEnters(s: State)
    requires s.pc == Waiting && s.fNextStates != [] && s.fNextStates[0] != Error
    ensures var s' := Do(Do(Do(s, Pop), Emit), Check);
            && s'.fState == s.fNextStates[0] && s'.fNextStates == s.fNextStates[1..] && s'.fErrorState == s.fErrorState
            && s'.entered == s.entered + [s.fNextStates[0]] && s'.emitted == s.emitted + [(s.fNextStates[0], s.fState)]
            && (s'.pc == Waiting <==> s'.fState != Exiting && s'.fErrorState != Error)
  {
  }

  /** A queued error is taken over by the error machine and stops the loop, whatever the other state is. */
  lemma ErrorStopsLoop(s: State)
    requires s.pc == Waiting && s.fNextStates != [] && s.fNextStates[0] == Error
    ensures var s' := Do(Do(Do(s, Pop), Emit), Check);
            s'.pc == Stopped && s'.fErrorState == Error && s'.fState == s.fState && s'.entered == s.entered
  {
  }

  lemma RoundOfLoop(s: State)
    requires s.pc == Waiting && s.fErrorState == Ok && s.fNextStates != [] && s.fNextStates[0] != Error
    ensures var s' := DoAll(s, [Pop, Emit, Check]);
            && s'.fState == s.fNextStates[0] && s'.fNextStates == s.fNextStates[1..] && s'.fErrorState == Ok
            && s'.entered == s.entered + [s.fNextStates[0]] && News(s'.emitted) == News(s.emitted) + [s.fNextStates[0]]
            && (s.fNextStates[0] != Exiting ==> s'.pc == Waiting)
  {
    ThreeActions(s, Pop, Emit, Check);
    RoundEnters(s);
    NewsMore(s.emitted, (s.fNextStates[0], s.fState));
  }

  /** All that is queued has been entered, in order, and told. */
  ghost predicate EnteredAll(s: State, s': State) {
    && s'.fNextStates == [] && s'.entered == s.entered + s.fNextStates
    && News(s'.emitted) == News(s.emitted) + s.fNextStates
    && (s.fNextStates != [] ==> s'.fState == s.fNextStates[|s.fNextStates| - 1])
  }

  lemma EnteredOneThenAll(s: State, s1: State, s': State)
    requires |s.fNextStates| > 1 && s1.fNextStates == s.fNextStates[1..] && s1.entered == s.entered + [s.fNextStates[0]]
    requires News(s1.emitted) == News(s.emitted) + [s.fNextStates[0]] && EnteredAll(s1, s')
    ensures EnteredAll(s, s')
  {
    assert [s.fNextStates[0]] + s.fNextStates[1..] == s.fNextStates;
    assert s1.entered + s1.fNextStates == s.entered + s.fNextStates;
    assert News(s1.emitted) + s1.fNextStates == News(s.emitted) + s.fNextStates;
  }

  /** Left to itself the loop enters all that is queued, in order, and has told of each. */
  lemma {:induction false} LoopEntersAll(s: State) returns (actions: seq<Action>)
    requires s.pc == Waiting && s.fErrorState == Ok
    requires forall i | 0 <= i < |s.fNextStates| :: s.fNextStates[i] != Error && (i < |s.fNextStates| - 1 ==> s.fNextStates[i] != Exiting)
    ensures EnteredAll(s, DoAll(s, actions))
    decreases |s.fNextStates|
  {
    if s.fNextStates == [] {
      actions := [];
    } else {
      var round := [Pop, Emit, Check];
      RoundOfLoop(s);
      if |s.fNextStates| == 1 {
        actions := round;
      } else {
        var s1 := DoAll(s, round);
        var rest := LoopEntersAll(s1);
        EnteredOneThenAll(s, s1, DoAll(s1, rest));
        AppendActions(s, round, rest);
        actions := round + rest;
      }
    }
  }

  lemma NewsMore(pairs: seq<(St, St)>, p: (St, St))
    ensures News(pairs + [p]) == News(pairs) + [p.0]
  {
    assert (pairs + [p])[..|pairs|] == pairs;
  }

  // ----- the object -----

  function Requests(ts: seq<Transition>): seq<Action> {
    seq(|ts|, i requires 0 <= i < |ts| => ChangeState(ts[i]))
  }

  /** The transitions requested in the course of some actions. */
  function AsksOf(actions: seq<Action>): seq<Transition> {
    if actions == [] then []
    else
      var last := actions[|actions| - 1];
      AsksOf(actions[..|actions| - 1]) + if last.ChangeState? then [last.t] else []
  }

  lemma {:induction false} AsksAppend(a: seq<Action>, b: seq<Action>)
    ensures AsksOf(a + b) == AsksOf(a) + AsksOf(b)
  {
    if b == [] {
      assert a + b == a;
    } else {
      AsksAppend(a, b[..|b| - 1]);
      assert (a + b)[..|a + b| - 1] == a + b[..|b| - 1];
    }
  }

  lemma {:induction false} AsksOfRequests(ts: seq<Transition>)
    ensures AsksOf(Requests(ts)) == ts
  {
    if ts != [] {
      AsksOfRequests(ts[..|ts| - 1]);
      assert Requests(ts)[..|ts| - 1] == Requests(ts[..|ts| - 1]);
    }
  }

  /** What the other threads request up to the moment the loop takes a state, and then until it checks. */
  datatype Others = Others(waiting: seq<Transition>, emitting: seq<Transition>)

  /** Once round the loop: with a state queued it is entered and emitted; with none the loop waits on. */
  function Round(s: State, o: Others): seq<Action> {
    var waited := Requests(o.waiting);
    if DoAll(s, waited).fNextStates == [] then waited + Requests(o.emitting)
    else waited + ([Pop] + Requests(o.emitting) + [Emit]) + [Check]
  }

  ghost predicate IsRound(s: State, o: Others, s': State) {
    s.pc == Waiting && s' == DoAll(s, Round(s, o))
  }

  /** The states between the rounds of a loop, from the first wait to where it stops or the requests run out. */
  ghost predicate IsLoop(states: seq<State>, others: seq<Others>) {
    && 0 < |states| <= |others| + 1
    && forall i: nat | i + 1 < |states| :: IsRound(states[i], others[i], states[i + 1])
  }

  function AllRequests(others: seq<Others>): seq<Transition> {
    if others == [] then []
    else
      var last := others[|others| - 1];
      AllRequests(others[..|others| - 1]) + (last.waiting + last.emitting)
  }

  lemma NoAsks(a: Action)
    requires !a.ChangeState?
    ensures AsksOf([a]) == []
  {
    assert [a][..0] == [];
  }

  lemma AdvanceAsks(ts: seq<Transition>)
    ensures AsksOf([Pop] + Requests(ts) + [Emit]) == ts
  {
    AsksOfRequests(ts);
    NoAsks(Pop);
    NoAsks(Emit);
    AsksAppend([Pop], Requests(ts));
    AsksAppend([Pop] + Requests(ts), [Emit]);
  }

  lemma RoundAsks(s: State, o: Others)
    ensures AsksOf(Round(s, o)) == o.waiting + o.emitting
  {
    var waited, advance := Requests(o.waiting), [Pop] + Requests(o.emitting) + [Emit];
    AsksOfRequests(o.waiting);
    if DoAll(s, waited).fNextStates == [] {
      AsksOfRequests(o.emitting);
      AsksAppend(waited, Requests(o.emitting));
    } else {
      AdvanceAsks(o.emitting);
      NoAsks(Check);
      AsksAppend(waited, advance);
      AsksAppend(waited + advance, [Check]);
    }
  }

  lemma RoundRun(states: seq<State>, others: seq<Others>, i: nat) returns (actions: seq<Action>)
    requires IsLoop(states, others) && i + 1 < |states|
    ensures DoAll(states[i], actions) == states[i + 1] && NoReset(actions) && AsksOf(actions) == others[i].waiting + others[i].emitting
  {
    assert IsRound(states[i], others[i], states[i + 1]);
    RoundAsks(states[i], others[i]);
    actions := Round(states[i], others[i]);
  }

  lemma LoopPrefix(states: seq<State>, others: seq<Others>, n: nat)
    requires IsLoop(states, others) && 0 < n <= |states|
    ensures IsLoop(states[..n], others)
  {
    forall i: nat | i + 1 < n
      ensures IsRound(states[..n][i], others[i], states[..n][i + 1])
    {
      assert IsRound(states[i], others[i], states[i + 1]);
    }
  }

  lemma JoinRuns(s: State, a: seq<Action>, b: seq<Action>) returns (c: seq<Action>)
    requires NoReset(a) && NoReset(b)
    ensures DoAll(s, c) == DoAll(DoAll(s, a), b) && NoReset(c) && AsksOf(c) == AsksOf(a) + AsksOf(b)
  {
    AppendActions(s, a, b);
    AsksAppend(a, b);
    c := a + b;
  }

  lemma OneMoreRequested(others: seq<Others>, n: nat)
    requires 0 < n <= |others|
    ensures AllRequests(others[..n]) == AllRequests(others[..n - 1]) + (others[n - 1].waiting + others[n - 1].emitting)
  {
    assert others[..n][..n - 1] == others[..n - 1];
  }

  /** A loop is a run of the machine that loses, repeats and reorders no request of its rounds, and never resets. */
  lemma {:induction false} LoopIsRun(states: seq<State>, others: seq<Others>) returns (actions: seq<Action>)
    requires IsLoop(states, others)
    ensures DoAll(states[0], actions) == states[|states| - 1] && NoReset(actions)
    ensures AsksOf(actions) == AllRequests(others[..|states| - 1])
    decreases |states|
  {
    var n := |states| - 1;
    if n == 0 {
      actions := [];
    } else {
      LoopPrefix(states, others, n);
      var before := LoopIsRun(states[..n], others);
      var round := RoundRun(states, others, n - 1);
      OneMoreRequested(others, n);
      actions := JoinRuns(states[0], before, round);
    }
  }

  class StateMachine {
    var fState: St
    var fErrorState: St
    var fNextStates: seq<St>
    ghost var pc: Pc
    ghost var accepted: seq<Transition>
    ghost var entered: seq<St>
    ghost var emitted: seq<(St, St)>

    ghost function View(): State
      reads this
    {
      State(fState, fErrorState, fNextStates, pc, accepted, entered, emitted)
    }

    constructor ()
      ensures View() == INITIAL
    {
      fState, fErrorState, fNextStates := Idle, Ok, [];
      pc, accepted, entered, emitted := Stopped, [], [], [];
    }

    /** None where the source throws, leaving the queue as it was. */
    method ChangeState(t: Transition) returns (next: Option<St>)
      modifies this
      ensures View() == Do(old(View()), Action.ChangeState(t))
      ensures next == Next(LastState(old(View()), t), t)
    {
      var lastState;
      if t == ErrorFound {
        lastState := fErrorState;
      } else if fNextStates == [] {
        lastState := fState;
      } else {
        lastState := fNextStates[|fNextStates| - 1];
      }
      next := Next(lastState, t);
      if next.Some? {
        fNextStates := fNextStates + [next.value];
        if t != ErrorFound {
          accepted := accepted + [t];
        }
      }
    }

    method Reset()
      modifies this
      ensures View() == Do(old(View()), Action.Reset)
    {
      fState, fErrorState, fNextStates := Idle, Ok, [];
      accepted, entered, emitted := [], [], [];
    }

    method ChangeStates(ts: seq<Transition>)
      modifies this
      ensures View() == DoAll(old(View()), Requests(ts))
      ensures pc == old(pc) && fState == old(fState) && fErrorState == old(fErrorState)
    {
      for i := 0 to |ts|
        invariant View() == DoAll(old(View()), Requests(ts[..i]))
        invariant pc == old(pc) && fState == old(fState) && fErrorState == old(fErrorState)
      {
        assert Requests(ts[..i + 1])[..i] == Requests(ts[..i]);
        var _ := ChangeState(ts[i]);
      }
      assert ts[..|ts|] == ts;
    }

    /**
     The loop of `Run`, with what the other threads request in each round. `stopped` is false when
     the requests run out first.
     */
    method Run(others: seq<Others>) returns (stopped: bool, ghost states: seq<State>)
      requires pc == Stopped
      modifies this
      ensures IsLoop(states, others) && states[0] == Do(old(View()), StartRun) && View() == states[|states| - 1]
      ensures !stopped ==> |states| == |others| + 1
      ensures pc == if stopped then Stopped else Waiting
      ensures stopped ==> fState == Exiting || fErrorState == Error
    {
      pc := Waiting;
      states := [View()];
      for i := 0 to |others|
        invariant pc == Waiting && |states| == i + 1 && IsLoop(states, others)
        invariant states[0] == Do(old(View()), StartRun) && View() == states[i]
      {
        stopped := Iterate(others[i]);
        states := states + [View()];
        if stopped {
          return;
        }
      }
      stopped := false;
    }

    method Iterate(o: Others) returns (stopped: bool)
      requires pc == Waiting
      modifies this
      ensures View() == DoAll(old(View()), Round(old(View()), o))
      ensures pc == if stopped then Stopped else Waiting
      ensures stopped <==> DoAll(old(View()), Requests(o.waiting)).fNextStates != [] && (fState == Exiting || fErrorState == Error)
    {
      ghost var start, waited := View(), Requests(o.waiting);
      ChangeStates(o.waiting);
      if fNextStates == [] {
        AppendActions(start, waited, Requests(o.emitting));
        ChangeStates(o.emitting);
        return false;
      }
      ghost var advance := [Pop] + Requests(o.emitting) + [Emit];
      AppendActions(start, waited, advance);
      Advance(o.emitting);
      OneMore(start, waited + advance, Check);
      stopped := fState == Exiting || fErrorState == Error;
      pc := if stopped then Stopped else Waiting;
    }

    /** One state entered and emitted, with the requests that come in between. */
    method Advance(others: seq<Transition>)
      requires pc == Waiting && fNextStates != []
      modifies this
      ensures pc == Emitted
      ensures View() == DoAll(old(View()), [Pop] + Requests(others) + [Emit])
    {
      ghost var start := View();
      OneMore(start, [], Pop);
      assert [] + [Pop] == [Pop];
      AppendActions(start, [Pop], Requests(others));
      OneMore(start, [Pop] + Requests(others), Emit);
      var lastState := PopState();
      ChangeStates(others);
      EmitState(lastState);
    }

    method PopState() returns (lastState: St)
      requires pc == Waiting && fNextStates != []
      modifies this
      ensures View() == Do(old(View()), Pop) && pc.Popped? && pc.last == lastState
    {
      if fNextStates[0] == Error {
        lastState := fErrorState;
        fErrorState := fNextStates[0];
      } else {
        lastState := fState;
        fState := fNextStates[0];
        entered := entered + [fNextStates[0]];
      }
      pc := Popped(lastState, fNextStates[0] != Error);
      fNextStates := fNextStates[1..];
    }

    method EmitState(lastState: St)
      requires pc.Popped? && pc.last == lastState
      modifies this
      ensures View() == Do(old(View()), Emit) && pc == Emitted
    {
      emitted := if pc.regular then emitted + [(fState, lastState)] else emitted;
      pc := Emitted;
    }
  }

  lemma OneMore(s: State, actions: seq<Action>, a: Action)
    ensures DoAll(s, actions + [a]) == Do(DoAll(s, actions), a)
  {
    assert (actions + [a])[..|actions|] == actions;
  }
}
