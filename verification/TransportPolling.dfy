/**
 Data callbacks with several transports: one polling thread per transport, one mutex around every
 callback, and one shared flag that a callback's result, or a failed receive, writes under it.
 */
module TransportPolling {
  import opened Wrappers

  datatype Pc = Polling | WantsLock | Entered | InCallback | Left

  datatype Outcome = Returned(proceed: bool) | ReceiveFailed | Threw

  datatype State = State(threads: seq<Pc>, owner: Option<nat>, proceed: bool, trace: seq<Outcome>)

  datatype Action =
    | FindInput(t: nat)
    | TakeLock(t: nat)
    | ReceiveInput(t: nat, ok: bool)
    | Return(t: nat, result: bool)
    | Throw(t: nat)
    | Leave(t: nat)

  function Initial(n: nat): State {
    State(seq(n, _ => Polling), None, true, [])
  }

  predicate At(s: State, t: nat, pc: Pc) {
    t < |s.threads| && s.threads[t] == pc
  }

  function Released(s: State, t: nat, pc: Pc, proceed: bool, o: Outcome): State
    requires t < |s.threads|
  {
    State(s.threads[t := pc], None, proceed, s.trace + [o])
  }

  /** One atomic action of a thread; one that is not enabled leaves the state alone. */
  function Do(s: State, a: Action): State {
    match a
    case FindInput(t) => if At(s, t, Polling) then s.(threads := s.threads[t := WantsLock]) else s
    case TakeLock(t) =>
      if At(s, t, WantsLock) && s.owner.None? then
        if s.proceed then s.(threads := s.threads[t := Entered], owner := Some(t))
        else s.(threads := s.threads[t := Polling])
      else s
    case ReceiveInput(t, ok) =>
      if !At(s, t, Entered) then s
      else if ok then s.(threads := s.threads[t := InCallback])
      else Released(s, t, Polling, false, ReceiveFailed)
    case Return(t, result) =>
      if At(s, t, InCallback) then Released(s, t, Polling, result, Returned(result)) else s
    case Throw(t) =>
      if At(s, t, InCallback) then Released(s, t, Left, s.proceed, Threw) else s
    case Leave(t) => if At(s, t, Polling) then s.(threads := s.threads[t := Left]) else s
  }

  function DoAll(s: State, actions: seq<Action>): State {
    if actions == [] then s
    else Do(DoAll(s, actions[..|actions| - 1]), actions[|actions| - 1])
  }

  function Run(n: nat, actions: seq<Action>): State {
    DoAll(Initial(n), actions)
  }

  predicate Stops(o: Outcome) {
    o == Returned(false) || o == ReceiveFailed
  }

  /** The mutex is held by the one thread inside, which is inside only while the flag is up. */
  ghost predicate Inv(s: State) {
    && (forall t: nat | t < |s.threads| :: s.threads[t] in {Entered, InCallback} <==> s.owner == Some(t))
    && (s.owner.Some? ==> s.owner.value < |s.threads| && s.proceed)
    && (forall i | 0 <= i < |s.trace| - 1 :: !Stops(s.trace[i]))
    && (s.proceed <==> s.trace == [] || !Stops(s.trace[|s.trace| - 1]))
  }

  lemma StepInv(s: State, a: Action)
    requires Inv(s)
    ensures Inv(Do(s, a))
  {
  }

  lemma {:induction false} RunInv(n: nat, actions: seq<Action>)
    ensures Inv(Run(n, actions))
  {
    if actions != [] {
      RunInv(n, actions[..|actions| - 1]);
      StepInv(Run(n, actions[..|actions| - 1]), actions[|actions| - 1]);
    }
  }

  /** For any number of threads, two are never in a callback together. */
  lemma CallbacksNeverOverlap(n: nat, actions: seq<Action>, t: nat, u: nat)
    requires At(Run(n, actions), t, InCallback) && At(Run(n, actions), u, InCallback)
    ensures t == u
  {
    RunInv(n, actions);
  }

  lemma {:induction false} StoppedStays(s: State, more: seq<Action>)
    requires Inv(s) && !s.proceed
    ensures var s' := DoAll(s, more);
            Inv(s') && !s'.proceed && s'.trace == s.trace && forall t: nat :: !At(s', t, InCallback)
  {
    if more != [] {
      StoppedStays(s, more[..|more| - 1]);
      StepInv(DoAll(s, more[..|more| - 1]), more[|more| - 1]);
    }
  }

  /** After a false result or a failed receive no callback starts, whatever the threads do. */
  lemma OnlyTheLastOutcomeStops(n: nat, actions: seq<Action>, i: nat)
    requires i < |Run(n, actions).trace| && Stops(Run(n, actions).trace[i])
    ensures i == |Run(n, actions).trace| - 1
    ensures forall more :: DoAll(Run(n, actions), more).trace == Run(n, actions).trace
    ensures forall more, t: nat :: !At(DoAll(Run(n, actions), more), t, InCallback)
  {
    RunInv(n, actions);
    forall more ensures DoAll(Run(n, actions), more).trace == Run(n, actions).trace {
      StoppedStays(Run(n, actions), more);
    }
    forall more, t: nat ensures !At(DoAll(Run(n, actions), more), t, InCallback) {
      StoppedStays(Run(n, actions), more);
    }
  }

  /** As long as no outcome has stopped it, every polling thread that finds the mutex free can get to its callback. */
  lemma CallbackCanRun(n: nat, actions: seq<Action>, t: nat)
    requires var s := Run(n, actions); At(s, t, Polling) && s.owner.None? && s.proceed
    ensures At(DoAll(Run(n, actions), [FindInput(t), TakeLock(t), ReceiveInput(t, true)]), t, InCallback)
  {
    var s := Run(n, actions);
    var all := [FindInput(t), TakeLock(t), ReceiveInput(t, true)];
    assert all[..2] == [FindInput(t), TakeLock(t)] && all[..2][..1] == [FindInput(t)] && all[..2][..1][..0] == [];
    assert DoAll(s, [FindInput(t)]) == Do(s, FindInput(t));
    assert DoAll(s, all[..2]) == Do(Do(s, FindInput(t)), TakeLock(t));
  }

  /** A callback that returns true, or throws, leaves the others as they were and the mutex free; only a thread that throws is gone. */
  lemma OthersGoOn(n: nat, actions: seq<Action>, t: nat, u: nat, a: Action)
    requires At(Run(n, actions), t, InCallback) && (a == Return(t, true) || a == Throw(t)) && u < n && u != t
    ensures var s, s' := Run(n, actions), Do(Run(n, actions), a);
            && |s'.threads| == |s.threads| == n && s'.threads[u] == s.threads[u]
            && s'.owner.None? && s'.proceed && At(s', t, if a.Throw? then Left else Polling)
  {
    RunInv(n, actions);
    ThreadsStay(n, actions);
  }

  lemma {:induction false} ThreadsStay(n: nat, actions: seq<Action>)
    ensures |Run(n, actions).threads| == n
  {
    if actions != [] {
      ThreadsStay(n, actions[..|actions| - 1]);
    }
  }
}
