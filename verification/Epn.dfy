/**
 The event processing node: counting the pieces of each timeframe, and spending one of its
 slots on every complete one. `receive` is the loop over the FLP channels; the worker threads
 give slots back through a shared counter.
 */
module Epn {

  const MAX_SLOTS: nat := 4

  /** What one channel yields in one pass of `receive`. */
  datatype Input = NotReady | BadSize | Piece(idOfFlp: int, sTF: nat)

  /** The node with the history of its completed timeframes and the fate of each of them. */
  datatype State = State(rcvdSTFs: map<nat, nat>, freeSlots: int, completed: seq<nat>,
                         running: nat, finished: nat, lost: nat)

  function Initial(): State {
    State(map[], MAX_SLOTS, [], 0, 0, 0)
  }

  function Count(s: State, tf: nat): nat {
    if tf in s.rcvdSTFs then s.rcvdSTFs[tf] else 0
  }

  /** A complete timeframe takes a slot, or is lost when there is none. */
  function Completed(s: State, tf: nat): State {
    var done := s.completed + [tf];
    if s.freeSlots - 1 >= 0
    then s.(freeSlots := s.freeSlots - 1, completed := done, running := s.running + 1)
    else s.(freeSlots := 0, completed := done, lost := s.lost + 1)
  }

  function Counted(s: State, numFLPS: nat, tf: nat): State {
    var n := Count(s, tf) + 1;
    var counted := s.(rcvdSTFs := s.rcvdSTFs[tf := n]);
    if n == numFLPS then Completed(counted, tf) else counted
  }

  /** The input of channel `i`; bad sizes and foreign ids are dropped. */
  function Handled(s: State, numFLPS: nat, i: nat, input: Input): State {
    if input.Piece? && input.idOfFlp == i + 1 then Counted(s, numFLPS, input.sTF) else s
  }

  /** A worker thread ends and returns its slot. */
  function Finished(s: State): State {
    if s.running == 0 then s
    else s.(freeSlots := s.freeSlots + 1, running := s.running - 1, finished := s.finished + 1)
  }

  function Pass(s: State, numFLPS: nat, inputs: seq<Input>): State {
    if inputs == [] then s
    else Handled(Pass(s, numFLPS, inputs[..|inputs| - 1]), numFLPS, |inputs| - 1, inputs[|inputs| - 1])
  }

  /** Slots are conserved and every completed timeframe is accounted for. */
  ghost predicate Balanced(s: State) {
    && s.freeSlots >= 0
    && s.freeSlots + s.running == MAX_SLOTS
    && |s.completed| == s.running + s.finished + s.lost
  }

  /** What a completed timeframe meets: a free slot and a worker of its own, or a full node. */
  predicate Completes(s: State, numFLPS: nat, tf: nat) {
    Count(s, tf) + 1 == numFLPS
  }

  /** The timeframe is lost exactly when all slots are running; otherwise it takes one. Nothing else happens without it. */
  lemma LostExactlyWhenFull(s: State, numFLPS: nat, tf: nat)
    requires Balanced(s)
    ensures var s' := Counted(s, numFLPS, tf);
            && Count(s', tf) == Count(s, tf) + 1 && (forall other: nat | other != tf :: Count(s', other) == Count(s, other))
            && s'.finished == s.finished
            && (Completes(s, numFLPS, tf) ==>
                  && s'.completed == s.completed + [tf]
                  && (s'.lost == s.lost + 1 <==> s.running == MAX_SLOTS)
                  && (s.running == MAX_SLOTS ==> s'.running == MAX_SLOTS && s'.freeSlots == 0)
                  && (s.running < MAX_SLOTS ==> s'.lost == s.lost && s'.running == s.running + 1 && s'.freeSlots == s.freeSlots - 1))
            && (!Completes(s, numFLPS, tf) ==>
                  s'.completed == s.completed && s'.lost == s.lost && s'.running == s.running && s'.freeSlots == s.freeSlots)
  {
  }

  /** A worker that ends gives back its slot and nothing else. */
  lemma EndFreesSlot(s: State)
    requires Balanced(s) && s.running > 0
    ensures var s' := Finished(s);
            && Balanced(s') && s'.running == s.running - 1 && s'.freeSlots == s.freeSlots + 1
            && s'.finished == s.finished + 1 && s'.lost == s.lost && s'.completed == s.completed && s'.rcvdSTFs == s.rcvdSTFs
  {
  }

  /** The channels whose input is a piece of timeframe `tf` from their own FLP. */
  ghost function Senders(inputs: seq<Input>, tf: nat): set<nat> {
    set i: nat | i < |inputs| && inputs[i] == Piece(i + 1, tf)
  }

  lemma HandledCounts(s: State, numFLPS: nat, i: nat, input: Input, tf: nat)
    ensures Count(Handled(s, numFLPS, i, input), tf) == Count(s, tf) + if input == Piece(i + 1, tf) then 1 else 0
  {
  }

  lemma SendersMore(inputs: seq<Input>, tf: nat)
    requires inputs != []
    ensures var n := |inputs| - 1;
            |Senders(inputs, tf)| == |Senders(inputs[..n], tf)| + if inputs[n] == Piece(n + 1, tf) then 1 else 0
  {
    var n := |inputs| - 1;
    var mine := if inputs[n] == Piece(n + 1, tf) then {n} else {};
    assert Senders(inputs, tf) == Senders(inputs[..n], tf) + mine;
  }

  /** A pass counts, for every timeframe, just the channels with a piece of it from their own FLP. */
  lemma {:induction false} PassCounts(s: State, numFLPS: nat, inputs: seq<Input>, tf: nat)
    ensures Count(Pass(s, numFLPS, inputs), tf) == Count(s, tf) + |Senders(inputs, tf)|
    decreases |inputs|
  {
    if inputs == [] {
      assert Senders(inputs, tf) == {};
    } else {
      var n := |inputs| - 1;
      PassCounts(s, numFLPS, inputs[..n], tf);
      HandledCounts(Pass(s, numFLPS, inputs[..n]), numFLPS, n, inputs[n], tf);
      SendersMore(inputs, tf);
    }
  }

  class Device {
    const numFLPS: nat
    var rcvdSTFs: map<nat, nat>
    var freeSlots: int
    ghost var completed: seq<nat>
    ghost var running: nat
    ghost var finished: nat
    ghost var lost: nat

    ghost function View(): State
      reads this
    {
      State(rcvdSTFs, freeSlots, completed, running, finished, lost)
    }

    constructor (numFLPS: nat)
      ensures this.numFLPS == numFLPS && View() == Initial() && freeSlots == 4
    {
      this.numFLPS := numFLPS;
      rcvdSTFs, freeSlots := map[], MAX_SLOTS;
      completed, running, finished, lost := [], 0, 0, 0;
    }

    /** One pass over the channels, with no worker ending meanwhile. */
    method Receive(inputs: seq<Input>)
      requires |inputs| == numFLPS
      modifies this
      ensures View() == Pass(old(View()), numFLPS, inputs)
      ensures old(Balanced(View())) ==> Balanced(View())
    {
      for i := 0 to numFLPS
        invariant View() == Pass(old(View()), numFLPS, inputs[..i])
        invariant old(Balanced(View())) ==> Balanced(View())
      {
        ghost var before := View();
        assert inputs[..i + 1][..i] == inputs[..i];
        if inputs[i].Piece? && inputs[i].idOfFlp == i + 1 {
          CountPiece(inputs[i].sTF);
        }
        assert View() == Handled(before, numFLPS, i, inputs[i]);
      }
      assert inputs[..numFLPS] == inputs;
    }

    method CountPiece(sTF: nat)
      modifies this
      ensures View() == Counted(old(View()), numFLPS, sTF)
    {
      if sTF !in rcvdSTFs {
        rcvdSTFs := rcvdSTFs[sTF := 0];
      }
      rcvdSTFs := rcvdSTFs[sTF := rcvdSTFs[sTF] + 1];
      assert rcvdSTFs == old(rcvdSTFs)[sTF := old(Count(View(), sTF)) + 1];
      if rcvdSTFs[sTF] == numFLPS {
        freeSlots := freeSlots - 1;
        completed := completed + [sTF];
        if freeSlots >= 0 {
          running := running + 1;
        } else {
          lost := lost + 1;
          freeSlots := 0;
        }
      }
    }
  }
}

/**
 The slot counter at the grain of its single writes: `receive` decrements, tests, then starts a
 worker or writes zero, while any number of workers increment in between.
 */
module EpnSlots {
  import Epn

  datatype Pc = Idle | Decremented | Spawning | Overdrawn

  /** `strayed` counts the workers that ended between a failed test and the write of zero. */
  datatype State = State(freeSlots: int, pc: Pc, running: nat, completed: nat, finished: nat, lost: nat, strayed: nat)

  datatype Action = Complete | Test | Spawn | WriteZero | Finish

  function Initial(maxSlots: nat): State {
    State(maxSlots, Idle, 0, 0, 0, 0, 0)
  }

  /** One atomic action; one that is not enabled leaves the state alone. */
  function Do(s: State, a: Action): State {
    match (a, s.pc)
    case (Complete, Idle) => s.(freeSlots := s.freeSlots - 1, completed := s.completed + 1, pc := Decremented)
    case (Test, Decremented) =>
      if s.freeSlots >= 0 then s.(pc := Spawning) else s.(pc := Overdrawn, lost := s.lost + 1)
    case (Spawn, Spawning) => s.(running := s.running + 1, pc := Idle)
    case (WriteZero, Overdrawn) => s.(freeSlots := 0, pc := Idle)
    case (Finish, _) =>
      if s.running == 0 then s
      else s.(freeSlots := s.freeSlots + 1, running := s.running - 1, finished := s.finished + 1,
              strayed := s.strayed + if s.pc == Overdrawn then 1 else 0)
    case _ => s
  }

  function Run(maxSlots: nat, actions: seq<Action>): State {
    if actions == [] then Initial(maxSlots)
    else Do(Run(maxSlots, actions[..|actions| - 1]), actions[|actions| - 1])
  }

  /** Where no worker ends in between, the single writes do what a completion does in one step. */
  lemma UndisturbedIsCompletion(node: Epn.State, s: State, tf: nat)
    requires s.pc == Idle && s.freeSlots == node.freeSlots && s.running == node.running && s.lost == node.lost
    ensures var done := Epn.Completed(node, tf);
            var s' := Do(Do(Do(Do(s, Complete), Test), Spawn), WriteZero);
            && s'.pc == Idle && s'.freeSlots == done.freeSlots && s'.running == done.running && s'.lost == done.lost
            && s'.strayed == s.strayed
  {
  }

  ghost predicate Inv(s: State, maxSlots: nat) {
    && s.completed == s.running + s.finished + s.lost + (if s.pc in {Decremented, Spawning} then 1 else 0)
    && match s.pc {
         case Idle => s.freeSlots >= 0 && s.freeSlots + s.running + s.strayed == maxSlots
         case Decremented => s.freeSlots >= -1 && s.freeSlots + s.running + s.strayed == maxSlots - 1
         case Spawning => s.freeSlots >= 0 && s.freeSlots + s.running + s.strayed == maxSlots - 1
         case Overdrawn => s.freeSlots >= -1 && s.running + s.strayed == maxSlots && s.freeSlots < s.strayed
       }
  }

  lemma {:induction false} RunInv(maxSlots: nat, actions: seq<Action>)
    ensures Inv(Run(maxSlots, actions), maxSlots)
  {
    if actions != [] {
      RunInv(maxSlots, actions[..|actions| - 1]);
    }
  }

  /**
   In every interleaving no more workers run than there are slots, what the sender thread reads
   lies between -1 and the maximum, and the slots missing from the balance are exactly the
   strayed ones.
   */
  lemma SlotsNeverOverspent(maxSlots: nat, actions: seq<Action>)
    ensures var s := Run(maxSlots, actions);
            && s.running <= maxSlots
            && -1 <= s.freeSlots <= maxSlots
            && s.freeSlots + s.running <= maxSlots
            && (s.pc == Idle ==> s.completed == s.running + s.finished + s.lost)
            && (s.pc == Idle ==> (s.freeSlots + s.running == maxSlots <==> s.strayed == 0))
  {
    RunInv(maxSlots, actions);
  }

  /** Action `i` is a worker ending between a failed test and the write of zero. */
  predicate Strays(maxSlots: nat, actions: seq<Action>, i: nat)
    requires i < |actions|
  {
    var s := Run(maxSlots, actions[..i]);
    actions[i] == Finish && s.pc == Overdrawn && s.running > 0
  }

  lemma {:induction false} StrayedCounts(maxSlots: nat, actions: seq<Action>)
    ensures Run(maxSlots, actions).strayed == 0 <==> forall i: nat | i < |actions| :: !Strays(maxSlots, actions, i)
  {
    if actions != [] {
      var n := |actions| - 1;
      var front := actions[..n];
      StrayedCounts(maxSlots, front);
      forall i: nat | i < n ensures Strays(maxSlots, actions, i) == Strays(maxSlots, front, i) {
        assert front[..i] == actions[..i];
      }
      assert Run(maxSlots, actions).strayed == Run(maxSlots, front).strayed + if Strays(maxSlots, actions, n) then 1 else 0;
    }
  }

  /** Between completions all slots are accounted for exactly when no worker has ended in that window. */
  lemma SlotsKeptExactlyWhenNoneStrays(maxSlots: nat, actions: seq<Action>)
    requires Run(maxSlots, actions).pc == Idle
    ensures var s := Run(maxSlots, actions);
            s.freeSlots + s.running == maxSlots <==> forall i: nat | i < |actions| :: !Strays(maxSlots, actions, i)
  {
    StrayedCounts(maxSlots, actions);
    SlotsNeverOverspent(maxSlots, actions);
  }

  /** A slot lost stays lost: no continuation, at any of its steps, has it back. */
  lemma {:induction false} LostStaysLost(maxSlots: nat, actions: seq<Action>, more: seq<Action>)
    requires Run(maxSlots, actions).strayed > 0
    ensures var s := Run(maxSlots, actions + more); s.strayed > 0 && s.freeSlots + s.running <= maxSlots - 1
    decreases |more|
  {
    RunInv(maxSlots, actions + more);
    if more == [] {
      assert actions + more == actions;
    } else {
      LostStaysLost(maxSlots, actions, more[..|more| - 1]);
      assert (actions + more)[..|actions + more| - 1] == actions + more[..|more| - 1];
    }
  }

  lemma RunMore(maxSlots: nat, actions: seq<Action>, a: Action)
    ensures Run(maxSlots, actions + [a]) == Do(Run(maxSlots, actions), a)
  {
    assert (actions + [a])[..|actions|] == actions;
  }

  lemma {:induction false} FullLoad(maxSlots: nat, k: nat) returns (actions: seq<Action>)
    requires k <= maxSlots
    ensures Run(maxSlots, actions) == State(maxSlots - k, Idle, k, k, 0, 0, 0)
  {
    if k == 0 {
      actions := [];
    } else {
      var before := FullLoad(maxSlots, k - 1);
      RunMore(maxSlots, before, Complete);
      RunMore(maxSlots, before + [Complete], Test);
      RunMore(maxSlots, before + [Complete] + [Test], Spawn);
      actions := before + [Complete] + [Test] + [Spawn];
    }
  }

  /** The balance does fail: for any number of slots some interleaving loses one for good. */
  lemma SlotCanBeLost(maxSlots: nat) returns (actions: seq<Action>)
    requires maxSlots > 0
    ensures var s := Run(maxSlots, actions); s.pc == Idle && s.freeSlots + s.running == maxSlots - 1
    ensures forall more :: var s := Run(maxSlots, actions + more); s.freeSlots + s.running <= maxSlots - 1
  {
    var full := FullLoad(maxSlots, maxSlots);
    RunMore(maxSlots, full, Complete);
    RunMore(maxSlots, full + [Complete], Test);
    RunMore(maxSlots, full + [Complete] + [Test], Finish);
    RunMore(maxSlots, full + [Complete] + [Test] + [Finish], WriteZero);
    actions := full + [Complete] + [Test] + [Finish] + [WriteZero];
    forall more
      ensures var s := Run(maxSlots, actions + more); s.freeSlots + s.running <= maxSlots - 1
    {
      LostStaysLost(maxSlots, actions, more);
    }
  }
}
