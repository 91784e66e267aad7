/**
 The whole scheduler / FLP / EPN system as one state machine. Schedules reach every FLP in
 order, an FLP numbers its sub-timeframes and sends each to the EPN its schedule names, and an
 EPN counts the pieces. Channels are lossless FIFO queues, kept as everything ever put in plus
 the number taken out.
 */
module TimeframeProtocol {
  import Epn

  datatype Config = Config(numFLPS: nat, numEPNS: nat, amountEPNs: nat)

  datatype Channel = Channel(sent: seq<Epn.Input>, taken: nat)

  /** `todo` is what is left of `arrayofEpns` in the current round. */
  datatype Flp = Flp(read: nat, todo: seq<int>, sTF: nat)

  datatype State = State(
    schedules: seq<seq<int>>,          // every schedule generated, in order
    delivered: seq<nat>,               // per FLP, how many of them are in its channel
    flps: seq<Flp>,
    data: map<(nat, nat), Channel>,    // by FLP and EPN
    epns: seq<Epn.State>)

  datatype Action =
    | Generate(schedule: seq<int>)
    | Deliver(flp: nat)
    | TakeSchedule(flp: nat)
    | SendPiece(flp: nat)
    | ReceivePiece(flp: nat, epn: nat)
    | WorkerEnds(epn: nat)

  predicate Real(c: Config, entry: int) {
    1 <= entry <= c.numEPNS
  }

  function Initial(c: Config): State {
    State([], seq(c.numFLPS, _ => 0), seq(c.numFLPS, _ => Flp(0, [], 0)),
          map f: nat, e: nat | f < c.numFLPS && e < c.numEPNS :: (f, e) := Channel([], 0),
          seq(c.numEPNS, _ => Epn.Initial()))
  }

  /** The counter goes up first; an entry with no channel makes the FLP throw and drop the rest of the round. */
  function SentPiece(c: Config, s: State, f: nat): State
    requires f < |s.flps| && s.flps[f].todo != []
  {
    var flp := s.flps[f];
    var dest, n := flp.todo[0], flp.sTF + 1;
    if Real(c, dest) && (f, dest - 1) in s.data then
      var ch := s.data[(f, dest - 1)];
      s.(flps := s.flps[f := flp.(todo := flp.todo[1..], sTF := n)],
         data := s.data[(f, dest - 1) := ch.(sent := ch.sent + [Epn.Piece(f + 1, n)])])
    else
      s.(flps := s.flps[f := flp.(todo := [], sTF := n)])
  }

  function ReceivedPiece(c: Config, s: State, f: nat, e: nat): State
    requires e < |s.epns| && (f, e) in s.data && s.data[(f, e)].taken < |s.data[(f, e)].sent|
  {
    var ch := s.data[(f, e)];
    s.(data := s.data[(f, e) := ch.(taken := ch.taken + 1)],
       epns := s.epns[e := Epn.Handled(s.epns[e], c.numFLPS, f, ch.sent[ch.taken])])
  }

  /** One atomic action; one that is not enabled leaves the state alone. */
  function Do(c: Config, s: State, a: Action): State {
    match a
    case Generate(schedule) =>
      if |schedule| == c.amountEPNs then s.(schedules := s.schedules + [schedule]) else s
    case Deliver(f) =>
      if f < |s.delivered| && s.delivered[f] < |s.schedules|
      then s.(delivered := s.delivered[f := s.delivered[f] + 1]) else s
    case TakeSchedule(f) =>
      if && f < |s.flps| && f < |s.delivered| && s.flps[f].todo == []
         && s.flps[f].read < s.delivered[f] && s.flps[f].read < |s.schedules|
      then s.(flps := s.flps[f := s.flps[f].(todo := s.schedules[s.flps[f].read], read := s.flps[f].read + 1)]) else s
    case SendPiece(f) =>
      if f < |s.flps| && s.flps[f].todo != [] then SentPiece(c, s, f) else s
    case ReceivePiece(f, e) =>
      if e < |s.epns| && (f, e) in s.data && s.data[(f, e)].taken < |s.data[(f, e)].sent|
      then ReceivedPiece(c, s, f, e) else s
    case WorkerEnds(e) =>
      if e < |s.epns| then s.(epns := s.epns[e := Epn.Finished(s.epns[e])]) else s
  }

  function DoAll(c: Config, s: State, actions: seq<Action>): State {
    if actions == [] then s
    else Do(c, DoAll(c, s, actions[..|actions| - 1]), actions[|actions| - 1])
  }

  function Run(c: Config, actions: seq<Action>): State {
    DoAll(c, Initial(c), actions)
  }

  // ----- the one route of every sub-timeframe -----

  /** The part of a schedule an FLP acts on: up to and including the first entry with no channel. */
  function Acted(c: Config, schedule: seq<int>): (r: seq<int>)
    ensures |r| <= |schedule|
  {
    if schedule == [] then []
    else if Real(c, schedule[0]) then [schedule[0]] + Acted(c, schedule[1..])
    else [schedule[0]]
  }

  function Routes(c: Config, schedules: seq<seq<int>>): seq<int> {
    if schedules == [] then []
    else Routes(c, schedules[..|schedules| - 1]) + Acted(c, schedules[|schedules| - 1])
  }

  lemma {:induction false} RoutesPrefix(c: Config, schedules: seq<seq<int>>, k: nat)
    requires k <= |schedules|
    ensures Routes(c, schedules[..k]) <= Routes(c, schedules)
  {
    if k < |schedules| {
      var front := schedules[..|schedules| - 1];
      assert schedules[..k] == front[..k];
      RoutesPrefix(c, front, k);
    } else {
      assert schedules[..k] == schedules;
    }
  }

  /** The pieces FLP `f` has put in its channel to EPN `e` after sending the first `n` routes. */
  function SentTo(routes: seq<int>, f: nat, e: nat, n: nat): seq<Epn.Input>
    requires n <= |routes|
  {
    if n == 0 then []
    else SentTo(routes, f, e, n - 1) + if routes[n - 1] == e + 1 then [Epn.Piece(f + 1, n)] else []
  }

  lemma {:induction false} SentToPrefix(routes: seq<int>, more: seq<int>, f: nat, e: nat, n: nat)
    requires n <= |routes| && routes <= more
    ensures SentTo(routes, f, e, n) == SentTo(more, f, e, n)
  {
    if n > 0 {
      SentToPrefix(routes, more, f, e, n - 1);
    }
  }

  /** The numbers in a channel are among the first `n` routed to its EPN, in increasing order. */
  ghost predicate Numbered(routes: seq<int>, f: nat, e: nat, n: nat, q: seq<Epn.Input>)
    requires n <= |routes|
  {
    && (forall k | 0 <= k < |q| ::
          q[k].Piece? && q[k].idOfFlp == f + 1 && 1 <= q[k].sTF <= n && routes[q[k].sTF - 1] == e + 1)
    && (forall j, k | 0 <= j < k < |q| :: q[j].sTF < q[k].sTF)
  }

  lemma {:induction false} SentToNumbers(routes: seq<int>, f: nat, e: nat, n: nat)
    requires n <= |routes|
    ensures Numbered(routes, f, e, n, SentTo(routes, f, e, n))
  {
    if n > 0 {
      SentToNumbers(routes, f, e, n - 1);
      var q, q' := SentTo(routes, f, e, n - 1), SentTo(routes, f, e, n);
      assert forall k | 0 <= k < |q| :: q'[k] == q[k];
    }
  }

  lemma {:induction false} SentToHas(routes: seq<int>, f: nat, e: nat, n: nat, tf: nat)
    requires n <= |routes| && 1 <= tf <= n && routes[tf - 1] == e + 1
    ensures Epn.Piece(f + 1, tf) in SentTo(routes, f, e, n)
  {
    if tf < n {
      SentToHas(routes, f, e, n - 1, tf);
    } else {
      assert SentTo(routes, f, e, n)[|SentTo(routes, f, e, n - 1)|] == Epn.Piece(f + 1, tf);
    }
  }

  // ----- the invariant -----

  ghost predicate Shape(c: Config, s: State) {
    && |s.delivered| == |s.flps| == c.numFLPS
    && |s.epns| == c.numEPNS
    && (forall f: nat, e: nat :: (f, e) in s.data <==> f < c.numFLPS && e < c.numEPNS)
    && (forall f | 0 <= f < c.numFLPS :: s.delivered[f] <= |s.schedules|)
  }

  /** An FLP has sent a prefix of its routes, and what it still has to act on is the next stretch. */
  ghost predicate FlpInv(c: Config, s: State, f: nat)
    requires Shape(c, s) && f < c.numFLPS
  {
    var flp := s.flps[f];
    && flp.read <= s.delivered[f]
    && (var known := Routes(c, s.schedules[..flp.read]);
        flp.sTF <= |known| && known[flp.sTF..] == Acted(c, flp.todo))
  }

  ghost predicate ChannelInv(c: Config, s: State, f: nat, e: nat)
    requires Shape(c, s) && f < c.numFLPS && e < c.numEPNS
  {
    var ch, routes := s.data[(f, e)], Routes(c, s.schedules);
    && s.flps[f].sTF <= |routes|
    && ch.sent == SentTo(routes, f, e, s.flps[f].sTF)
    && ch.taken <= |ch.sent|
  }

  /** Piece `tf` of FLP `f` has been taken out of its channel to `e`. */
  ghost predicate Arrived(data: map<(nat, nat), Channel>, f: nat, e: nat, tf: nat) {
    && (f, e) in data && data[(f, e)].taken <= |data[(f, e)].sent|
    && Epn.Piece(f + 1, tf) in data[(f, e)].sent[..data[(f, e)].taken]
  }

  ghost function ArrivedFrom(c: Config, data: map<(nat, nat), Channel>, e: nat, tf: nat): set<nat> {
    set f: nat | f < c.numFLPS && Arrived(data, f, e, tf)
  }

  ghost predicate EpnInv(c: Config, data: map<(nat, nat), Channel>, e: nat, epn: Epn.State) {
    && (forall tf: nat :: Epn.Count(epn, tf) == |ArrivedFrom(c, data, e, tf)|)
    && (forall tf: nat :: multiset(epn.completed)[tf]
                          == if c.numFLPS > 0 && Epn.Count(epn, tf) == c.numFLPS then 1 else 0)
    && Epn.Balanced(epn)
  }

  ghost predicate Inv(c: Config, s: State) {
    && Shape(c, s)
    && (forall f: nat | f < c.numFLPS :: FlpInv(c, s, f))
    && (forall f: nat, e: nat | f < c.numFLPS && e < c.numEPNS :: ChannelInv(c, s, f, e))
    && (forall e: nat | e < c.numEPNS :: EpnInv(c, s.data, e, s.epns[e]))
  }

  ghost function AllFlps(n: nat): (r: set<nat>)
    ensures |r| == n && forall f: nat :: f in r <==> f < n
  {
    if n == 0 then {} else AllFlps(n - 1) + {n - 1}
  }

  lemma ArrivedAtMost(c: Config, data: map<(nat, nat), Channel>, e: nat, tf: nat)
    ensures ArrivedFrom(c, data, e, tf) <= AllFlps(c.numFLPS)
    ensures |ArrivedFrom(c, data, e, tf)| <= c.numFLPS
  {
    SubsetSize(ArrivedFrom(c, data, e, tf), AllFlps(c.numFLPS));
  }

  lemma SubsetSize(a: set<nat>, b: set<nat>)
    requires a <= b
    ensures |a| <= |b|
    ensures |a| == |b| ==> a == b
  {
    assert a * (b - a) == {};
    assert a + (b - a) == b;
  }

  lemma InitialShape(c: Config)
    ensures Shape(c, Initial(c))
    ensures forall key | key in Initial(c).data :: Initial(c).data[key] == Channel([], 0)
  {
  }

  lemma InitialEpn(c: Config, data: map<(nat, nat), Channel>, e: nat)
    requires forall key | key in data :: data[key] == Channel([], 0)
    ensures EpnInv(c, data, e, Epn.Initial())
  {
    forall tf: nat
      ensures ArrivedFrom(c, data, e, tf) == {}
    {
      assert forall f: nat :: !Arrived(data, f, e, tf);
    }
  }

  lemma InitialInv(c: Config)
    ensures Inv(c, Initial(c))
  {
    InitialShape(c);
    forall e: nat | e < c.numEPNS
      ensures EpnInv(c, Initial(c).data, e, Initial(c).epns[e])
    {
      InitialEpn(c, Initial(c).data, e);
    }
  }

  // ----- each action keeps it -----

  lemma GenerateInv(c: Config, s: State, schedule: seq<int>)
    requires Inv(c, s)
    ensures Inv(c, Do(c, s, Generate(schedule)))
  {
    var s' := Do(c, s, Generate(schedule));
    var n := |s.schedules|;
    assert s'.schedules[..n] == s.schedules;
    RoutesPrefix(c, s'.schedules, n);
    forall f: nat | f < c.numFLPS ensures FlpInv(c, s', f) {
      assert FlpInv(c, s, f);
      assert s'.schedules[..s.flps[f].read] == s.schedules[..s.flps[f].read];
    }
    forall f: nat, e: nat | f < c.numFLPS && e < c.numEPNS ensures ChannelInv(c, s', f, e) {
      assert ChannelInv(c, s, f, e);
      SentToPrefix(Routes(c, s.schedules), Routes(c, s'.schedules), f, e, s.flps[f].sTF);
    }
  }

  lemma TakeScheduleInv(c: Config, s: State, f: nat)
    requires Inv(c, s)
    ensures Inv(c, Do(c, s, TakeSchedule(f)))
  {
    var s' := Do(c, s, TakeSchedule(f));
    if s' != s {
      var read := s.flps[f].read;
      assert s.schedules[..read + 1][..read] == s.schedules[..read];
      assert FlpInv(c, s, f);
      forall g: nat | g < c.numFLPS ensures FlpInv(c, s', g) {
        assert FlpInv(c, s, g);
      }
      forall g: nat, e: nat | g < c.numFLPS && e < c.numEPNS ensures ChannelInv(c, s', g, e) {
        assert ChannelInv(c, s, g, e);
      }
    }
  }

  /** The next entry an FLP acts on is the route of its next number. */
  lemma NextRoute(c: Config, s: State, f: nat)
    requires Inv(c, s) && f < c.numFLPS && s.flps[f].todo != []
    ensures var flp, routes := s.flps[f], Routes(c, s.schedules);
            flp.sTF < |routes| && routes[flp.sTF] == flp.todo[0]
  {
    assert FlpInv(c, s, f);
    var flp := s.flps[f];
    var known := Routes(c, s.schedules[..flp.read]);
    RoutesPrefix(c, s.schedules, flp.read);
    assert known[flp.sTF..][0] == Acted(c, flp.todo)[0] == flp.todo[0];
  }

  lemma SameArrivals(c: Config, data: map<(nat, nat), Channel>, data': map<(nat, nat), Channel>, e: nat, epn: Epn.State)
    requires EpnInv(c, data, e, epn)
    requires forall f: nat, tf: nat | f < c.numFLPS :: Arrived(data', f, e, tf) == Arrived(data, f, e, tf)
    ensures EpnInv(c, data', e, epn)
  {
    forall tf: nat ensures ArrivedFrom(c, data', e, tf) == ArrivedFrom(c, data, e, tf) {
    }
  }

  lemma SendPieceFlps(c: Config, s: State, f: nat)
    requires Inv(c, s) && f < c.numFLPS && s.flps[f].todo != []
    ensures var s' := SentPiece(c, s, f);
            Shape(c, s') && forall g: nat | g < c.numFLPS :: FlpInv(c, s', g)
  {
    var s' := SentPiece(c, s, f);
    var flp := s.flps[f];
    assert FlpInv(c, s, f);
    var known := Routes(c, s.schedules[..flp.read]);
    assert |Acted(c, flp.todo)| > 0;
    assert known[flp.sTF + 1..] == known[flp.sTF..][1..] == Acted(c, flp.todo)[1..];
    forall g: nat | g < c.numFLPS ensures FlpInv(c, s', g) {
      assert FlpInv(c, s, g);
    }
  }

  lemma SendPieceChannels(c: Config, s: State, f: nat, g: nat, e: nat)
    requires Inv(c, s) && f < c.numFLPS && s.flps[f].todo != [] && g < c.numFLPS && e < c.numEPNS
    requires Shape(c, SentPiece(c, s, f))
    ensures ChannelInv(c, SentPiece(c, s, f), g, e)
    ensures SentPiece(c, s, f).data[(g, e)].taken == s.data[(g, e)].taken
    ensures s.data[(g, e)].sent <= SentPiece(c, s, f).data[(g, e)].sent
  {
    NextRoute(c, s, f);
    assert ChannelInv(c, s, g, e);
  }

  lemma SendPieceInv(c: Config, s: State, f: nat)
    requires Inv(c, s)
    ensures Inv(c, Do(c, s, SendPiece(f)))
  {
    if f < c.numFLPS && s.flps[f].todo != [] {
      var s' := SentPiece(c, s, f);
      SendPieceFlps(c, s, f);
      forall g: nat, e: nat | g < c.numFLPS && e < c.numEPNS
        ensures ChannelInv(c, s', g, e)
      {
        SendPieceChannels(c, s, f, g, e);
      }
      forall e: nat | e < c.numEPNS ensures EpnInv(c, s'.data, e, s'.epns[e]) {
        forall g: nat, tf: nat | g < c.numFLPS ensures Arrived(s'.data, g, e, tf) == Arrived(s.data, g, e, tf) {
          SendPieceChannels(c, s, f, g, e);
          assert ChannelInv(c, s, g, e);
          var n := s.data[(g, e)].taken;
          assert s'.data[(g, e)].sent[..n] == s.data[(g, e)].sent[..n];
        }
        SameArrivals(c, s.data, s'.data, e, s.epns[e]);
      }
    }
  }

  /** The piece at the head of a channel is a proper one that has not arrived before. */
  lemma HeadIsNew(c: Config, s: State, f: nat, e: nat)
    requires Inv(c, s) && f < c.numFLPS && e < c.numEPNS && s.data[(f, e)].taken < |s.data[(f, e)].sent|
    ensures var piece := s.data[(f, e)].sent[s.data[(f, e)].taken];
            piece.Piece? && piece.idOfFlp == f + 1 && f !in ArrivedFrom(c, s.data, e, piece.sTF)
  {
    assert ChannelInv(c, s, f, e);
    SentToNumbers(Routes(c, s.schedules), f, e, s.flps[f].sTF);
  }

  lemma ReceiveArrivals(c: Config, s: State, f: nat, e: nat, tf: nat)
    requires Inv(c, s) && f < c.numFLPS && e < c.numEPNS && s.data[(f, e)].taken < |s.data[(f, e)].sent|
    ensures var ch := s.data[(f, e)];
            ArrivedFrom(c, ReceivedPiece(c, s, f, e).data, e, tf)
            == ArrivedFrom(c, s.data, e, tf) + if ch.sent[ch.taken] == Epn.Piece(f + 1, tf) then {f} else {}
  {
    var ch := s.data[(f, e)];
    assert ch.sent[..ch.taken + 1] == ch.sent[..ch.taken] + [ch.sent[ch.taken]];
    var data' := ReceivedPiece(c, s, f, e).data;
    forall g: nat | g < c.numFLPS
      ensures Arrived(data', g, e, tf)
              <==> Arrived(s.data, g, e, tf) || (g == f && ch.sent[ch.taken] == Epn.Piece(f + 1, tf))
    {
    }
  }

  lemma ReceiveEpn(c: Config, s: State, f: nat, e: nat)
    requires Inv(c, s) && f < c.numFLPS && e < c.numEPNS && s.data[(f, e)].taken < |s.data[(f, e)].sent|
    ensures var s' := ReceivedPiece(c, s, f, e); EpnInv(c, s'.data, e, s'.epns[e])
  {
    var s' := ReceivedPiece(c, s, f, e);
    var ch, epn, epn' := s.data[(f, e)], s.epns[e], s'.epns[e];
    HeadIsNew(c, s, f, e);
    var n := ch.sent[ch.taken].sTF;
    assert EpnInv(c, s.data, e, epn);
    forall tf: nat ensures Epn.Count(epn', tf) == |ArrivedFrom(c, s'.data, e, tf)| {
      ReceiveArrivals(c, s, f, e, tf);
      assert Epn.Count(epn, tf) == |ArrivedFrom(c, s.data, e, tf)|;
    }
    ArrivedAtMost(c, s'.data, e, n);
    assert Epn.Count(epn', n) == |ArrivedFrom(c, s'.data, e, n)| <= c.numFLPS;
    forall tf: nat
      ensures multiset(epn'.completed)[tf] == if c.numFLPS > 0 && Epn.Count(epn', tf) == c.numFLPS then 1 else 0
    {
      assert multiset(epn.completed)[tf] == if c.numFLPS > 0 && Epn.Count(epn, tf) == c.numFLPS then 1 else 0;
    }
  }

  lemma ReceivePieceInv(c: Config, s: State, f: nat, e: nat)
    requires Inv(c, s)
    ensures Inv(c, Do(c, s, ReceivePiece(f, e)))
  {
    if f < c.numFLPS && e < c.numEPNS && s.data[(f, e)].taken < |s.data[(f, e)].sent| {
      var s' := ReceivedPiece(c, s, f, e);
      forall g: nat | g < c.numFLPS ensures FlpInv(c, s', g) {
        assert FlpInv(c, s, g);
      }
      forall g: nat, d: nat | g < c.numFLPS && d < c.numEPNS ensures ChannelInv(c, s', g, d) {
        assert ChannelInv(c, s, g, d);
      }
      ReceiveEpn(c, s, f, e);
      forall d: nat | d < c.numEPNS ensures EpnInv(c, s'.data, d, s'.epns[d]) {
        if d != e { SameArrivals(c, s.data, s'.data, d, s.epns[d]); }
      }
    }
  }

  lemma OtherInv(c: Config, s: State, a: Action)
    requires Inv(c, s) && (a.Deliver? || a.WorkerEnds?)
    ensures Inv(c, Do(c, s, a))
  {
    var s' := Do(c, s, a);
    forall f: nat | f < c.numFLPS ensures FlpInv(c, s', f) {
      assert FlpInv(c, s, f);
    }
    forall f: nat, e: nat | f < c.numFLPS && e < c.numEPNS ensures ChannelInv(c, s', f, e) {
      assert ChannelInv(c, s, f, e);
    }
    forall e: nat | e < c.numEPNS ensures EpnInv(c, s'.data, e, s'.epns[e]) {
      assert EpnInv(c, s.data, e, s.epns[e]);
      assert forall tf: nat :: Epn.Count(s'.epns[e], tf) == Epn.Count(s.epns[e], tf);
    }
  }

  lemma {:induction false} RunInv(c: Config, actions: seq<Action>)
    ensures Inv(c, Run(c, actions))
  {
    if actions == [] {
      InitialInv(c);
    } else {
      var s, a := Run(c, actions[..|actions| - 1]), actions[|actions| - 1];
      RunInv(c, actions[..|actions| - 1]);
      match a
      case Generate(schedule) => GenerateInv(c, s, schedule);
      case TakeSchedule(f) => TakeScheduleInv(c, s, f);
      case SendPiece(f) => SendPieceInv(c, s, f);
      case ReceivePiece(f, e) => ReceivePieceInv(c, s, f, e);
      case Deliver(_) => OtherInv(c, s, a);
      case WorkerEnds(_) => OtherInv(c, s, a);
    }
  }

  // ----- what holds in every interleaving -----

  /** Whatever FLPs and EPNs two pieces with the same number travel between, the EPN is the same. */
  lemma OneRoutePerTimeframe(c: Config, actions: seq<Action>, f: nat, e: nat, i: nat, g: nat, d: nat, j: nat)
    requires f < c.numFLPS && e < c.numEPNS && g < c.numFLPS && d < c.numEPNS
    requires var s := Run(c, actions);
             && (f, e) in s.data && i < |s.data[(f, e)].sent| && s.data[(f, e)].sent[i].Piece?
             && (g, d) in s.data && j < |s.data[(g, d)].sent| && s.data[(g, d)].sent[j].Piece?
             && s.data[(f, e)].sent[i].sTF == s.data[(g, d)].sent[j].sTF
    ensures e == d
  {
    RunInv(c, actions);
    var s := Run(c, actions);
    assert ChannelInv(c, s, f, e) && ChannelInv(c, s, g, d);
    SentToNumbers(Routes(c, s.schedules), f, e, s.flps[f].sTF);
    SentToNumbers(Routes(c, s.schedules), g, d, s.flps[g].sTF);
  }

  /** The run-time assertion in `receive` never fires: a count is a number of distinct FLPs. */
  lemma CountsAreArrivals(c: Config, actions: seq<Action>, e: nat, tf: nat)
    requires e < c.numEPNS
    ensures var s := Run(c, actions);
            && e < |s.epns|
            && Epn.Count(s.epns[e], tf) == |ArrivedFrom(c, s.data, e, tf)| <= c.numFLPS
            && Epn.Balanced(s.epns[e])
  {
    RunInv(c, actions);
    ArrivedAtMost(c, Run(c, actions).data, e, tf);
  }

  /** In every run an action loses a timeframe exactly when it completes one on a node with all slots running. */
  lemma LostExactlyWhenFull(c: Config, actions: seq<Action>, a: Action, e: nat)
    requires e < c.numEPNS
    ensures var s, s' := Run(c, actions), Do(c, Run(c, actions), a);
            && |s.epns| == |s'.epns| == c.numEPNS
            && (s'.epns[e].lost != s.epns[e].lost <==> s'.epns[e].completed != s.epns[e].completed && s.epns[e].running == Epn.MAX_SLOTS)
            && (s'.epns[e].completed != s.epns[e].completed && s.epns[e].running < Epn.MAX_SLOTS ==>
                  s'.epns[e].running == s.epns[e].running + 1 && s'.epns[e].freeSlots == s.epns[e].freeSlots - 1)
  {
    RunInv(c, actions);
    var s := Run(c, actions);
    if a.ReceivePiece? && a.epn == e && (a.flp, e) in s.data && s.data[(a.flp, e)].taken < |s.data[(a.flp, e)].sent| {
      var piece := s.data[(a.flp, e)].sent[s.data[(a.flp, e)].taken];
      HeadIsNew(c, s, a.flp, e);
      Epn.LostExactlyWhenFull(s.epns[e], c.numFLPS, piece.sTF);
    }
  }

  /** In every run the end of a worker gives its node a slot back, and changes nothing else anywhere. */
  lemma WorkerEndFreesSlot(c: Config, actions: seq<Action>, e: nat)
    requires e < c.numEPNS && e < |Run(c, actions).epns| && Run(c, actions).epns[e].running > 0
    ensures var s, s' := Run(c, actions), Do(c, Run(c, actions), WorkerEnds(e));
            && s' == s.(epns := s'.epns) && |s'.epns| == |s.epns|
            && (forall d: nat | d < |s.epns| && d != e :: s'.epns[d] == s.epns[d])
            && s'.epns[e].running == s.epns[e].running - 1 && s'.epns[e].freeSlots == s.epns[e].freeSlots + 1
            && s'.epns[e].completed == s.epns[e].completed && s'.epns[e].lost == s.epns[e].lost
  {
    RunInv(c, actions);
    Epn.EndFreesSlot(Run(c, actions).epns[e]);
  }

  lemma CompletedIsRouted(c: Config, s: State, e: nat, tf: nat)
    requires Inv(c, s) && e < c.numEPNS && tf in s.epns[e].completed
    ensures var routes := Routes(c, s.schedules); 1 <= tf <= |routes| && routes[tf - 1] == e + 1
  {
    assert EpnInv(c, s.data, e, s.epns[e]);
    assert multiset(s.epns[e].completed)[tf] > 0;
    var from := ArrivedFrom(c, s.data, e, tf);
    assert |from| == c.numFLPS > 0;
    assert from != {};
    var f :| f in from;
    assert ChannelInv(c, s, f, e);
    SentToNumbers(Routes(c, s.schedules), f, e, s.flps[f].sTF);
  }

  /** No timeframe completes twice, at one EPN or at two. */
  lemma CompletesAtMostOnce(c: Config, actions: seq<Action>, e: nat, d: nat, tf: nat)
    requires e < c.numEPNS && d < c.numEPNS
    ensures var s := Run(c, actions);
            && |s.epns| == c.numEPNS
            && multiset(s.epns[e].completed)[tf] <= 1
            && (tf in s.epns[e].completed && tf in s.epns[d].completed ==> e == d)
  {
    RunInv(c, actions);
    var s := Run(c, actions);
    assert EpnInv(c, s.data, e, s.epns[e]);
    if tf in s.epns[e].completed && tf in s.epns[d].completed {
      CompletedIsRouted(c, s, e, tf);
      CompletedIsRouted(c, s, d, tf);
    }
  }

  /** Once every FLP has sent its piece and the EPN has emptied its channels, the timeframe is complete there. */
  lemma DrainedIsComplete(c: Config, actions: seq<Action>, e: nat, tf: nat)
    requires c.numFLPS > 0 && e < c.numEPNS
    requires var s := Run(c, actions);
             && 1 <= tf <= |Routes(c, s.schedules)| && Routes(c, s.schedules)[tf - 1] == e + 1
             && |s.flps| == c.numFLPS
             && (forall f: nat | f < c.numFLPS :: tf <= s.flps[f].sTF)
             && (forall f: nat | f < c.numFLPS && (f, e) in s.data :: s.data[(f, e)].taken == |s.data[(f, e)].sent|)
    ensures var s := Run(c, actions);
            && |s.epns| == c.numEPNS
            && multiset(s.epns[e].completed)[tf] == 1
            && forall d: nat | d < c.numEPNS && d != e :: multiset(s.epns[d].completed)[tf] == 0
  {
    RunInv(c, actions);
    var s := Run(c, actions);
    var routes := Routes(c, s.schedules);
    forall f: nat | f < c.numFLPS ensures f in ArrivedFrom(c, s.data, e, tf) {
      assert ChannelInv(c, s, f, e);
      SentToHas(routes, f, e, s.flps[f].sTF, tf);
      var ch := s.data[(f, e)];
      assert ch.sent[..ch.taken] == ch.sent;
    }
    assert ArrivedFrom(c, s.data, e, tf) == AllFlps(c.numFLPS);
    assert EpnInv(c, s.data, e, s.epns[e]);
    assert tf in s.epns[e].completed;
    forall d: nat | d < c.numEPNS && d != e ensures multiset(s.epns[d].completed)[tf] == 0 {
      CompletesAtMostOnce(c, actions, e, d, tf);
    }
  }

  // ----- the FLP's loop -----

  // ----- every timeframe can complete -----

  lemma OneMoreAction(c: Config, s: State, actions: seq<Action>, a: Action)
    ensures DoAll(c, s, actions + [a]) == Do(c, DoAll(c, s, actions), a)
  {
    assert (actions + [a])[..|actions|] == actions;
  }

  lemma {:induction false} ActionsThen(c: Config, s: State, first: seq<Action>, more: seq<Action>)
    ensures DoAll(c, s, first + more) == DoAll(c, DoAll(c, s, first), more)
    decreases |more|
  {
    if more == [] {
      assert first + more == first;
    } else {
      ActionsThen(c, s, first, more[..|more| - 1]);
      assert (first + more)[..|first + more| - 1] == first + more[..|more| - 1];
    }
  }

  lemma JoinActions(c: Config, s: State, first: seq<Action>, more: seq<Action>) returns (actions: seq<Action>)
    ensures DoAll(c, s, actions) == DoAll(c, DoAll(c, s, first), more)
  {
    ActionsThen(c, s, first, more);
    actions := first + more;
  }

  lemma FirstThen(c: Config, s: State, a: Action, more: seq<Action>) returns (actions: seq<Action>)
    ensures DoAll(c, s, actions) == DoAll(c, Do(c, s, a), more)
  {
    OneMoreAction(c, s, [], a);
    assert [] + [a] == [a];
    actions := JoinActions(c, s, [a], more);
  }

  lemma AnyInv(c: Config, s: State, a: Action)
    requires Inv(c, s)
    ensures Inv(c, Do(c, s, a))
  {
    match a
    case Generate(schedule) => GenerateInv(c, s, schedule);
    case TakeSchedule(f) => TakeScheduleInv(c, s, f);
    case SendPiece(f) => SendPieceInv(c, s, f);
    case ReceivePiece(f, e) => ReceivePieceInv(c, s, f, e);
    case _ => OtherInv(c, s, a);
  }

  /** The FLP has nothing more to hear, to read or to send. */
  ghost predicate CaughtUp(s: State, f: nat) {
    && f < |s.flps| && f < |s.delivered|
    && s.delivered[f] == |s.schedules| && s.flps[f].read == |s.schedules| && s.flps[f].todo == []
  }

  /** Nothing but FLP `f` and its channels has changed. */
  ghost predicate OnlyFlp(s: State, s': State, f: nat) {
    && s'.schedules == s.schedules && |s'.flps| == |s.flps| && |s'.delivered| == |s.delivered|
    && (forall g: nat | g != f && g < |s.flps| :: s'.flps[g] == s.flps[g])
    && (forall g: nat | g != f && g < |s.delivered| :: s'.delivered[g] == s.delivered[g])
  }

  /** What the FLP can do next. */
  function NextOf(s: State, f: nat): Action
    requires f < |s.flps| && f < |s.delivered|
  {
    if s.flps[f].todo != [] then SendPiece(f)
    else if s.flps[f].read < s.delivered[f] then TakeSchedule(f)
    else Deliver(f)
  }

  lemma FlpMoves(c: Config, s: State, f: nat)
    requires Inv(c, s) && f < c.numFLPS && !CaughtUp(s, f)
    ensures var s' := Do(c, s, NextOf(s, f));
            && Inv(c, s') && OnlyFlp(s, s', f)
            && (|| s'.delivered[f] > s.delivered[f]
                || (s'.delivered[f] == s.delivered[f] && s'.flps[f].read > s.flps[f].read)
                || (s'.delivered[f] == s.delivered[f] && s'.flps[f].read == s.flps[f].read && |s'.flps[f].todo| < |s.flps[f].todo|))
  {
    AnyInv(c, s, NextOf(s, f));
    assert FlpInv(c, s, f);
  }

  lemma {:induction false} CatchUp(c: Config, s: State, f: nat) returns (actions: seq<Action>)
    requires Inv(c, s) && f < c.numFLPS
    ensures var s' := DoAll(c, s, actions); Inv(c, s') && OnlyFlp(s, s', f) && CaughtUp(s', f)
    decreases |s.schedules| - s.delivered[f], |s.schedules| - s.flps[f].read, |s.flps[f].todo|
  {
    assert FlpInv(c, s, f);
    if CaughtUp(s, f) {
      actions := [];
    } else {
      var a := NextOf(s, f);
      FlpMoves(c, s, f);
      var s1 := Do(c, s, a);
      assert FlpInv(c, s1, f);
      var rest := CatchUp(c, s1, f);
      actions := FirstThen(c, s, a, rest);
    }
  }

  lemma {:induction false} AllCatchUp(c: Config, s: State, n: nat) returns (actions: seq<Action>)
    requires Inv(c, s) && n <= c.numFLPS
    ensures var s' := DoAll(c, s, actions);
            Inv(c, s') && s'.schedules == s.schedules && forall f: nat | f < n :: CaughtUp(s', f)
  {
    if n == 0 {
      actions := [];
    } else {
      var before := AllCatchUp(c, s, n - 1);
      var s1 := DoAll(c, s, before);
      var rest := CatchUp(c, s1, n - 1);
      actions := JoinActions(c, s, before, rest);
      forall f: nat | f < n - 1
        ensures CaughtUp(DoAll(c, s1, rest), f)
      {
        assert CaughtUp(s1, f);
      }
    }
  }

  /** The channel from `f` to `e` has nothing left in it. */
  ghost predicate Empty(s: State, f: nat, e: nat) {
    (f, e) in s.data && s.data[(f, e)].taken == |s.data[(f, e)].sent|
  }

  /** Nothing but the channel from `f` to `e` and the node `e` has changed. */
  ghost predicate OnlyChannel(s: State, s': State, f: nat, e: nat) {
    && s'.schedules == s.schedules && s'.flps == s.flps && s'.delivered == s.delivered
    && forall key | key != (f, e) && key in s.data :: key in s'.data && s'.data[key] == s.data[key]
  }

  lemma {:induction false} DrainOne(c: Config, s: State, f: nat, e: nat) returns (actions: seq<Action>)
    requires Inv(c, s) && f < c.numFLPS && e < c.numEPNS
    ensures var s' := DoAll(c, s, actions); Inv(c, s') && OnlyChannel(s, s', f, e) && Empty(s', f, e)
    decreases |s.data[(f, e)].sent| - s.data[(f, e)].taken
  {
    assert ChannelInv(c, s, f, e);
    if Empty(s, f, e) {
      actions := [];
    } else {
      var a := ReceivePiece(f, e);
      AnyInv(c, s, a);
      var s1 := Do(c, s, a);
      var rest := DrainOne(c, s1, f, e);
      actions := FirstThen(c, s, a, rest);
    }
  }

  lemma StaysEmpty(s: State, s': State, g: nat, f: nat, e: nat)
    requires OnlyChannel(s, s', g, e) && Empty(s, f, e) && f != g
    ensures Empty(s', f, e)
  {
  }

  lemma {:induction false} DrainAll(c: Config, s: State, n: nat, e: nat) returns (actions: seq<Action>)
    requires Inv(c, s) && n <= c.numFLPS && e < c.numEPNS
    ensures var s' := DoAll(c, s, actions);
            && Inv(c, s') && s'.schedules == s.schedules && s'.flps == s.flps && s'.delivered == s.delivered
            && forall f: nat | f < n :: Empty(s', f, e)
  {
    if n == 0 {
      actions := [];
    } else {
      var before := DrainAll(c, s, n - 1, e);
      var s1 := DoAll(c, s, before);
      var rest := DrainOne(c, s1, n - 1, e);
      actions := JoinActions(c, s, before, rest);
      forall f: nat | f < n - 1
        ensures Empty(DoAll(c, s1, rest), f, e)
      {
        StaysEmpty(s1, DoAll(c, s1, rest), n - 1, f, e);
      }
    }
  }

  lemma CaughtUpHasSent(c: Config, s: State, f: nat)
    requires Inv(c, s) && f < c.numFLPS && CaughtUp(s, f)
    ensures s.flps[f].sTF == |Routes(c, s.schedules)|
  {
    assert FlpInv(c, s, f);
    assert s.schedules[..|s.schedules|] == s.schedules;
  }

  /**
   From every reachable state, every timeframe that a schedule routes to an EPN can still complete there:
   deliver, read and send what there is, and empty the EPN's channels.
   */
  lemma EveryTimeframeCanComplete(c: Config, actions: seq<Action>, e: nat, tf: nat) returns (more: seq<Action>)
    requires c.numFLPS > 0 && e < c.numEPNS
    requires var routes := Routes(c, Run(c, actions).schedules); 1 <= tf <= |routes| && routes[tf - 1] == e + 1
    ensures var s := Run(c, actions + more); e < |s.epns| && tf in s.epns[e].completed
  {
    RunInv(c, actions);
    var s := Run(c, actions);
    var first := AllCatchUp(c, s, c.numFLPS);
    var s1 := DoAll(c, s, first);
    var second := DrainAll(c, s1, c.numFLPS, e);
    ActionsThen(c, s, first, second);
    more := first + second;
    ActionsThen(c, Initial(c), actions, more);
    var s2 := Run(c, actions + more);
    forall f: nat | f < c.numFLPS
      ensures tf <= s2.flps[f].sTF && s2.data[(f, e)].taken == |s2.data[(f, e)].sent|
    {
      assert CaughtUp(s1, f) && Empty(s2, f, e);
      CaughtUpHasSent(c, s2, f);
    }
    DrainedIsComplete(c, actions + more, e, tf);
  }

  /** The EPN index and the piece of every send in a round over `plan`, counting on from `n`. */
  function PiecesOf(c: Config, id: int, n: nat, plan: seq<int>): seq<(int, Epn.Input)>
    decreases |plan|
  {
    if plan == [] || !Real(c, plan[0]) then []
    else [(plan[0] - 1, Epn.Piece(id, n + 1))] + PiecesOf(c, id, n + 1, plan[1..])
  }

  function PiecesFor(pieces: seq<(int, Epn.Input)>, e: nat): seq<Epn.Input> {
    if pieces == [] then []
    else (if pieces[0].0 == e then [pieces[0].1] else []) + PiecesFor(pieces[1..], e)
  }

  /** One entry of the plan: what is acted on and what is sent from there. */
  lemma PlanStep(c: Config, id: int, n: nat, plan: seq<int>, i: nat)
    requires i < |plan|
    ensures |Acted(c, plan[i..])| == if Real(c, plan[i]) then 1 + |Acted(c, plan[i + 1..])| else 1
    ensures PiecesOf(c, id, n, plan[i..])
         == if Real(c, plan[i]) then [(plan[i] - 1, Epn.Piece(id, n + 1))] + PiecesOf(c, id, n + 1, plan[i + 1..]) else []
  {
    assert plan[i..][1..] == plan[i + 1..];
  }

  /** A round uses up a number for every entry, and for the first one with no channel, where it ends. */
  lemma {:induction false} NumbersUsed(c: Config, plan: seq<int>, i: nat)
    requires i <= |plan| && forall k | 0 <= k < i :: Real(c, plan[k])
    requires i < |plan| ==> !Real(c, plan[i])
    ensures |Acted(c, plan)| == if i < |plan| then i + 1 else i
  {
    if i > 0 {
      NumbersUsed(c, plan[1..], i - 1);
    }
  }

  /** What a round sends: to the EPNs of the plan in their order, numbered on from where the FLP was. */
  lemma {:induction false} PiecesNumbered(c: Config, id: int, n: nat, plan: seq<int>, i: nat)
    requires i <= |plan| && forall k | 0 <= k < i :: Real(c, plan[k])
    requires i < |plan| ==> !Real(c, plan[i])
    ensures |PiecesOf(c, id, n, plan)| == i
    ensures forall k: nat | k < i :: PiecesOf(c, id, n, plan)[k] == (plan[k] - 1, Epn.Piece(id, n + k + 1))
    decreases |plan|
  {
    if i > 0 {
      PiecesNumbered(c, id, n + 1, plan[1..], i - 1);
      assert PiecesOf(c, id, n, plan) == [(plan[0] - 1, Epn.Piece(id, n + 1))] + PiecesOf(c, id, n + 1, plan[1..]);
    }
  }

  /** Where the loop stands at entry `i`: what it has counted and sent, with the rest, makes the whole. */
  ghost predicate RoundAt(c: Config, id: int, plan: seq<int>, i: nat, start: nat, sTF: nat, sent: seq<(int, Epn.Input)>)
    requires i <= |plan|
  {
    && (forall k | 0 <= k < i :: Real(c, plan[k]))
    && sTF + |Acted(c, plan[i..])| == start + |Acted(c, plan)|
    && sent + PiecesOf(c, id, sTF, plan[i..]) == PiecesOf(c, id, start, plan)
  }

  lemma RoundGoesOn(c: Config, id: int, plan: seq<int>, i: nat, start: nat, sTF: nat, sent: seq<(int, Epn.Input)>)
    requires i < |plan| && RoundAt(c, id, plan, i, start, sTF, sent)
    ensures Real(c, plan[i]) ==> RoundAt(c, id, plan, i + 1, start, sTF + 1, sent + [(plan[i] - 1, Epn.Piece(id, sTF + 1))])
    ensures !Real(c, plan[i]) ==> sTF + 1 == start + |Acted(c, plan)| && sent == PiecesOf(c, id, start, plan)
  {
    PlanStep(c, id, sTF, plan, i);
  }

  class FlpDevice {
    const c: Config
    const myId: int
    var arrayofEpns: seq<int>
    var sTF: nat

    constructor (c: Config, myId: int)
      ensures this.c == c && this.myId == myId && sTF == 0 && |arrayofEpns| == c.amountEPNs
    {
      this.c, this.myId := c, myId;
      arrayofEpns, sTF := seq(c.amountEPNs, _ => 0), 0;
    }

    /** One round of `Run`; a message of the wrong size is ignored and the old plan sent again. */
    method Round(msg: seq<int>) returns (sent: seq<(int, Epn.Input)>, ok: bool)
      requires |arrayofEpns| == c.amountEPNs
      modifies this
      ensures arrayofEpns == if |msg| == c.amountEPNs then msg else old(arrayofEpns)
      ensures sTF == old(sTF) + |Acted(c, arrayofEpns)|
      ensures sent == PiecesOf(c, myId, old(sTF), arrayofEpns)
      ensures ok <==> forall k | 0 <= k < c.amountEPNs :: Real(c, arrayofEpns[k])
    {
      if |msg| == c.amountEPNs {
        arrayofEpns := msg;
      }
      var plan := arrayofEpns;
      sent := [];
      for i := 0 to c.amountEPNs
        invariant RoundAt(c, myId, plan, i, old(sTF), sTF, sent)
        invariant arrayofEpns == plan
      {
        RoundGoesOn(c, myId, plan, i, old(sTF), sTF, sent);
        sTF := sTF + 1;
        if !Real(c, plan[i]) {
          return sent, false;
        }
        sent := sent + [(plan[i] - 1, Epn.Piece(myId, sTF))];
      }
      ok := true;
    }
  }

  /** The FLP sends until its round is over. */
  ghost function SendAll(c: Config, s: State, f: nat): State
    decreases if f < |s.flps| then |s.flps[f].todo| else 0
  {
    if f < |s.flps| && s.flps[f].todo != [] then SendAll(c, Do(c, s, SendPiece(f)), f) else s
  }

  lemma SentPieceShape(c: Config, s: State, f: nat, e: nat)
    requires Shape(c, s) && f < c.numFLPS && e < c.numEPNS && s.flps[f].todo != []
    ensures var s', flp := Do(c, s, SendPiece(f)), s.flps[f];
            var named := Real(c, flp.todo[0]);
            && Shape(c, s')
            && s'.flps[f] == Flp(flp.read, if named then flp.todo[1..] else [], flp.sTF + 1)
            && s'.data[(f, e)].sent
               == s.data[(f, e)].sent + if named && flp.todo[0] == e + 1 then [Epn.Piece(f + 1, flp.sTF + 1)] else []
  {
  }

  lemma PiecesForPlan(c: Config, id: int, n: nat, plan: seq<int>, e: nat)
    requires plan != []
    ensures PiecesFor(PiecesOf(c, id, n, plan), e)
         == if !Real(c, plan[0]) then []
            else (if plan[0] == e + 1 then [Epn.Piece(id, n + 1)] else []) + PiecesFor(PiecesOf(c, id, n + 1, plan[1..]), e)
  {
    var pieces := PiecesOf(c, id, n, plan);
    assert Real(c, plan[0]) ==> pieces[1..] == PiecesOf(c, id, n + 1, plan[1..]);
  }

  lemma SendAllUnfolds(c: Config, s: State, f: nat)
    requires f < |s.flps| && s.flps[f].todo != []
    ensures SendAll(c, s, f) == SendAll(c, Do(c, s, SendPiece(f)), f)
  {
  }

  lemma {:induction false} RoundEnds(c: Config, s: State, f: nat)
    requires Shape(c, s) && f < c.numFLPS && c.numEPNS > 0
    ensures var s', flp := SendAll(c, s, f), s.flps[f];
            Shape(c, s') && s'.flps[f] == Flp(flp.read, [], flp.sTF + |Acted(c, flp.todo)|)
    decreases |s.flps[f].todo|
  {
    if s.flps[f].todo != [] {
      SentPieceShape(c, s, f, 0);
      SendAllUnfolds(c, s, f);
      RoundEnds(c, Do(c, s, SendPiece(f)), f);
    }
  }

  lemma {:induction false} RoundSends(c: Config, s: State, f: nat, e: nat)
    requires Shape(c, s) && f < c.numFLPS && e < c.numEPNS
    ensures (f, e) in SendAll(c, s, f).data
    ensures SendAll(c, s, f).data[(f, e)].sent
         == s.data[(f, e)].sent + PiecesFor(PiecesOf(c, f + 1, s.flps[f].sTF, s.flps[f].todo), e)
    decreases |s.flps[f].todo|
  {
    if s.flps[f].todo != [] {
      SentPieceShape(c, s, f, e);
      PiecesForPlan(c, f + 1, s.flps[f].sTF, s.flps[f].todo, e);
      SendAllUnfolds(c, s, f);
      RoundSends(c, Do(c, s, SendPiece(f)), f, e);
    }
  }

  /** The loop of the FLP is the machine's single sends, one after the other. */
  lemma RoundIsItsSends(c: Config, s: State, f: nat, e: nat)
    requires Shape(c, s) && f < c.numFLPS && e < c.numEPNS
    ensures var s', flp := SendAll(c, s, f), s.flps[f];
            && Shape(c, s')
            && s'.flps[f] == Flp(flp.read, [], flp.sTF + |Acted(c, flp.todo)|)
            && s'.data[(f, e)].sent
               == s.data[(f, e)].sent + PiecesFor(PiecesOf(c, f + 1, flp.sTF, flp.todo), e)
  {
    RoundEnds(c, s, f);
    RoundSends(c, s, f, e);
  }
}
