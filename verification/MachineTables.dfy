/**
 The two state machines of the library, the queued one and the one with a worker, held against each
 other, and the queued one against a count of its transitions.
 */
module MachineTables {
  import opened Wrappers
  import Q = QueuedStateMachine
  import D = DeviceMachine

  /** The state of the machine with the worker that a regular state stands for. */
  function StateFor(s: Q.St): Option<D.St> {
    match s
    case Idle => Some(D.Idle)
    case InitializingDevice => Some(D.InitializingDevice)
    case DeviceReady => Some(D.DeviceReady)
    case InitializingTask => Some(D.InitializingTask)
    case Ready => Some(D.Ready)
    case Running => Some(D.Running)
    case ResettingTask => Some(D.ResettingTask)
    case ResettingDevice => Some(D.ResettingDevice)
    case Exiting => Some(D.Exiting)
    case Ok => None
    case Error => None
  }

  /** The event an external transition stands for; Automatic stands for the end of a handler. */
  function EventFor(t: Q.Transition): Option<D.Event> {
    match t
    case InitDevice => Some(D.InitDevice)
    case InitTask => Some(D.InitTask)
    case Run => Some(D.Run)
    case Stop => Some(D.Stop)
    case ResetTask => Some(D.ResetTask)
    case ResetDevice => Some(D.ResetDevice)
    case End => Some(D.End)
    case ErrorFound => None
    case Automatic => None
  }

  function TargetOf(row: Option<D.Row>): Option<D.St> {
    if row.Some? then Some(row.value.target) else None
  }

  function TargetFor(next: Option<Q.St>): Option<D.St> {
    if next.Some? then StateFor(next.value) else None
  }

  /** PAUSED aside, both machines answer every request in every state with the same state, or both refuse it. */
  lemma SameAnswers(s: Q.St, t: Q.Transition)
    requires StateFor(s).Some? && EventFor(t).Some?
    ensures TargetFor(Q.Next(s, t)) == TargetOf(D.Table(StateFor(s).value, EventFor(t).value))
    ensures Q.Next(s, t).Some? ==> StateFor(Q.Next(s, t).value).Some?
  {
  }

  /** Automatic is what the handler of a one-shot state does at its end, and is refused where there is none. */
  lemma AutomaticIsHandlerEnd(s: Q.St, h: D.Handler)
    requires StateFor(s).Some?
    ensures D.OneShot(h) && D.StateOf(h) == StateFor(s).value ==>
              TargetFor(Q.Next(s, Q.Automatic)) == TargetOf(D.Table(StateFor(s).value, D.SignalOf(h).value)) != None
    ensures !D.OneShotState(StateFor(s).value) ==> Q.Next(s, Q.Automatic) == None
  {
  }

  /** An error is found once, in the machine of its own. */
  lemma ErrorFoundOnce(s: Q.St)
    ensures Q.Next(s, Q.ErrorFound) == if s == Q.Ok then Some(Q.Error) else None
  {
  }

  // ----- walks -----

  function Times(ts: seq<Q.Transition>, t: Q.Transition): nat {
    if ts == [] then 0 else Times(ts[..|ts| - 1], t) + if ts[|ts| - 1] == t then 1 else 0
  }

  lemma TimesMore(ts: seq<Q.Transition>, t: Q.Transition, x: Q.Transition)
    ensures Times(ts + [t], x) == Times(ts, x) + if t == x then 1 else 0
  {
    assert (ts + [t])[..|ts|] == ts;
  }

  /** How deep a state lies in device, task and run. */
  function Depth(s: Q.St): (int, int, int) {
    match s
    case InitializingDevice => (1, 0, 0)
    case DeviceReady => (1, 0, 0)
    case InitializingTask => (1, 1, 0)
    case Ready => (1, 1, 0)
    case Running => (1, 1, 1)
    case ResettingTask => (1, 0, 0)
    case _ => (0, 0, 0)
  }

  /** A one-shot state waits for its Automatic. */
  function Pending(s: Q.St): nat {
    if s in {Q.InitializingDevice, Q.InitializingTask, Q.ResettingTask, Q.ResettingDevice} then 1 else 0
  }

  /** Every transition counts in its place: what was done and not undone says where the machine is. */
  ghost predicate Accounted(ts: seq<Q.Transition>, s: Q.St) {
    && Times(ts, Q.InitDevice) - Times(ts, Q.ResetDevice) == Depth(s).0
    && Times(ts, Q.InitTask) - Times(ts, Q.ResetTask) == Depth(s).1
    && Times(ts, Q.Run) - Times(ts, Q.Stop) == Depth(s).2
    && Times(ts, Q.InitDevice) + Times(ts, Q.ResetDevice) + Times(ts, Q.InitTask) + Times(ts, Q.ResetTask)
       == Times(ts, Q.Automatic) + Pending(s)
    && Times(ts, Q.End) == (if s == Q.Exiting then 1 else 0)
    && s != Q.Error && s != Q.Ok
  }

  lemma AccountedMore(ts: seq<Q.Transition>, s: Q.St, t: Q.Transition, next: Q.St)
    requires Accounted(ts, s) && Q.Next(s, t) == Some(next)
    ensures Accounted(ts + [t], next)
  {
    TimesMore(ts, t, Q.InitDevice);
    TimesMore(ts, t, Q.ResetDevice);
    TimesMore(ts, t, Q.InitTask);
    TimesMore(ts, t, Q.ResetTask);
    TimesMore(ts, t, Q.Run);
    TimesMore(ts, t, Q.Stop);
    TimesMore(ts, t, Q.Automatic);
    TimesMore(ts, t, Q.End);
  }

  lemma {:induction false} WalkAccounted(ts: seq<Q.Transition>, states: seq<Q.St>)
    requires Q.IsWalk(ts, states)
    ensures Accounted(ts, Q.Last(states))
  {
    if ts != [] {
      var n := |ts| - 1;
      var before := Q.Walk(ts[..n]).value;
      WalkAccounted(ts[..n], before);
      AccountedMore(ts[..n], Q.Last(before), ts[n], Q.Last(states));
      assert ts[..n] + [ts[n]] == ts;
    }
  }

  /**
   The walks that come back to IDLE are those with every INIT_DEVICE undone by a RESET_DEVICE, no handler
   still to end, and no END.
   */
  lemma BackToIdleExactly(ts: seq<Q.Transition>, states: seq<Q.St>)
    requires Q.IsWalk(ts, states)
    ensures Q.Last(states) == Q.Idle <==>
              && Times(ts, Q.InitDevice) == Times(ts, Q.ResetDevice)
              && Times(ts, Q.Automatic)
                 == Times(ts, Q.InitDevice) + Times(ts, Q.ResetDevice) + Times(ts, Q.InitTask) + Times(ts, Q.ResetTask)
              && Times(ts, Q.End) == 0
  {
    WalkAccounted(ts, states);
  }

  /** STOP undoes RUN, and a reset with its handler's end undoes an initialisation with its own. */
  lemma Undone(s: Q.St)
    ensures Q.Next(s, Q.Run).Some? ==> Q.Next(Q.Next(s, Q.Run).value, Q.Stop) == Some(s)
    ensures After(s, Q.InitTask).Some? ==> After(After(s, Q.InitTask).value, Q.ResetTask) == Some(s)
    ensures After(s, Q.InitDevice).Some? ==> After(After(s, Q.InitDevice).value, Q.ResetDevice) == Some(s)
  {
  }

  /** A transition into a one-shot state and the end of its handler. */
  function After(s: Q.St, t: Q.Transition): Option<Q.St> {
    if Q.Next(s, t).Some? then Q.Next(Q.Next(s, t).value, Q.Automatic) else None
  }
}
