/**
 Ownership of shared-memory chunks and region blocks as they move between message objects, meta
 headers in flight, the regions' acknowledgement queues and the callbacks. Each message that has
 a handle and is not queued owns one token; so does each header in flight.
 */
module SharedMemory {
  import opened Wrappers

  const ACK_CAPACITY: nat := 10000

  /** A chunk of the managed segment, or a block of an unmanaged region as its owner handed it out. */
  datatype Token = Chunk(handle: int) | Block(region: nat, handle: int, size: nat, hint: nat)

  datatype Header = Header(size: nat, regionId: nat, handle: int, hint: nat)

  /**
   A message object. `meta` is the header in its frame's buffer, `framed` whether the frame has a
   size: a message built by a multipart receive has the header but an empty frame.
   */
  datatype Message = Message(fHandle: int, fSize: nat, fRegionId: nat, fHint: nat, fQueued: bool,
                             meta: Option<Header>, framed: bool)

  datatype Region = Region(acks: seq<Token>, callbacks: seq<Token>)

  /** Messages by creation order, None once destroyed; each socket a FIFO of frames of headers. */
  datatype State = State(
    messages: seq<Option<Message>>,
    sockets: seq<seq<seq<Header>>>,
    regions: seq<Region>,          // by region id; id 0 stands for the managed segment
    chunks: set<int>,              // handles allocated in the managed segment
    created: multiset<Token>,      // every chunk allocated, every region message built
    deallocated: multiset<Token>)

  datatype Action =
    | NewEmpty
    | NewSized(size: nat, handle: int)
    | NewRegion(region: nat, handle: int, size: nat, hint: nat)
    | Send(m: nat, socket: nat)
    | SendParts(ms: seq<nat>, socket: nat)
    | Receive(m: nat, socket: nat)
    | ReceiveParts(socket: nat)
    | Copy(m: nat, from: nat, handle: int)
    | SetUsedSize(m: nat, size: nat)
    | Destroy(m: nat)
    | ReceiveAck(region: nat)

  const EMPTY: Message := Message(-1, 0, 0, 0, false, None, false)

  function Initial(sockets: nat, regions: nat): State {
    State([], seq(sockets, _ => []), seq(regions, _ => Region([], [])), {}, multiset{}, multiset{})
  }

  function TokenOf(h: Header): Token {
    if h.regionId == 0 then Chunk(h.handle) else Block(h.regionId, h.handle, h.size, h.hint)
  }

  function HeaderOf(m: Message): Header {
    Header(m.fSize, m.fRegionId, m.fHandle, m.fHint)
  }

  predicate Owns(m: Message) {
    m.fHandle >= 0 && !m.fQueued
  }

  predicate Live(s: State, m: nat) {
    m < |s.messages| && s.messages[m].Some?
  }

  // ----- the operations -----

  /** What InitializeChunk leaves once the allocator has given `handle`. */
  function WithChunk(m: Message, handle: int, size: nat): Message {
    var sized := m.(fHandle := handle, fSize := size);
    sized.(meta := Some(HeaderOf(sized)), framed := true)
  }

  function FromHeader(h: Header, framed: bool): Message {
    Message(h.handle, h.size, h.regionId, h.hint, false, Some(h), framed)
  }

  function Allocate(s: State, handle: int): State {
    s.(chunks := s.chunks + {handle}, created := s.created + multiset{Chunk(handle)})
  }

  function Queued(messages: seq<Option<Message>>, ms: seq<nat>): (r: seq<Option<Message>>) {
    seq(|messages|, k requires 0 <= k < |messages| =>
      if k in ms && messages[k].Some? then Some(messages[k].value.(fQueued := true)) else messages[k])
  }

  predicate HasHeader(messages: seq<Option<Message>>, m: nat) {
    m < |messages| && messages[m].Some? && !messages[m].value.fQueued && messages[m].value.meta.Some?
  }

  /** The parts a multipart send may be given: distinct, unsent, each with a header in its frame. */
  predicate Sendable(messages: seq<Option<Message>>, ms: seq<nat>) {
    && (forall i | 0 <= i < |ms| :: HasHeader(messages, ms[i]))
    && (forall i, j | 0 <= i < j < |ms| :: ms[i] != ms[j])
  }

  function Metas(messages: seq<Option<Message>>, ms: seq<nat>): seq<Header>
    requires Sendable(messages, ms)
  {
    seq(|ms|, i requires 0 <= i < |ms| && HasHeader(messages, ms[i]) => messages[ms[i]].value.meta.value)
  }

  /** A frame without size goes out empty and takes nothing along; the message keeps what it owns. */
  function Sent(s: State, m: nat, socket: nat): State
    requires Live(s, m) && socket < |s.sockets|
  {
    var msg := s.messages[m].value;
    if msg.framed && msg.meta.Some? then
      s.(messages := s.messages[m := Some(msg.(fQueued := true, meta := None, framed := false))],
         sockets := s.sockets[socket := s.sockets[socket] + [[msg.meta.value]]])
    else
      s.(messages := s.messages[m := Some(msg.(meta := None, framed := false))],
         sockets := s.sockets[socket := s.sockets[socket] + [[]]])
  }

  function SentParts(s: State, ms: seq<nat>, socket: nat): State
    requires Sendable(s.messages, ms) && socket < |s.sockets|
  {
    s.(messages := Queued(s.messages, ms),
       sockets := s.sockets[socket := s.sockets[socket] + [Metas(s.messages, ms)]])
  }

  function Received(s: State, m: nat, socket: nat): State
    requires Live(s, m) && socket < |s.sockets| && s.sockets[socket] != [] && |s.sockets[socket][0]| <= 1
  {
    var frame := s.sockets[socket][0];
    var popped := s.(sockets := s.sockets[socket := s.sockets[socket][1..]]);
    if frame == [] then popped.(messages := s.messages[m := Some(s.messages[m].value.(meta := None, framed := false))])
    else popped.(messages := s.messages[m := Some(FromHeader(frame[0], true))])
  }

  function Unpacked(frame: seq<Header>): seq<Option<Message>> {
    seq(|frame|, i requires 0 <= i < |frame| => Some(FromHeader(frame[i], false)))
  }

  function ReceivedParts(s: State, socket: nat): State
    requires socket < |s.sockets| && s.sockets[socket] != []
  {
    var frame := s.sockets[socket][0];
    s.(sockets := s.sockets[socket := s.sockets[socket][1..]],
       messages := s.messages + Unpacked(frame))
  }

  function Copied(s: State, m: nat, from: nat, handle: int): State
    requires Live(s, m) && Live(s, from)
  {
    Allocate(s, handle).(messages :=
      s.messages[m := Some(WithChunk(s.messages[m].value, handle, s.messages[from].value.fSize))])
  }

  function Resized(s: State, m: nat, size: nat): State
    requires Live(s, m)
  {
    var msg := s.messages[m].value.(fSize := size);
    var meta := if msg.meta.Some? then Some(msg.meta.value.(size := size)) else None;
    s.(messages := s.messages[m := Some(msg.(meta := meta))])
  }

  /** CloseMessage in the destructor; the ack loop waits while the region's queue is full. */
  function Destroyed(s: State, m: nat): State
    requires Live(s, m)
  {
    var msg := s.messages[m].value;
    var gone := s.(messages := s.messages[m := None]);
    if !Owns(msg) then gone
    else if msg.fRegionId == 0 then
      gone.(chunks := s.chunks - {msg.fHandle}, deallocated := s.deallocated + multiset{Chunk(msg.fHandle)})
    else if msg.fRegionId < |s.regions| && |s.regions[msg.fRegionId].acks| < ACK_CAPACITY then
      var r := s.regions[msg.fRegionId];
      gone.(regions := s.regions[msg.fRegionId := r.(acks := r.acks + [TokenOf(HeaderOf(msg))])])
    else s
  }

  /** One action; one outside its contract, or that has to wait, leaves the state alone. */
  function Do(s: State, a: Action): State {
    match a
    case NewEmpty => s.(messages := s.messages + [Some(EMPTY)])
    case NewSized(size, handle) =>
      if handle >= 0 && handle !in s.chunks
      then Allocate(s, handle).(messages := s.messages + [Some(WithChunk(EMPTY, handle, size))]) else s
    case NewRegion(region, handle, size, hint) =>
      if 0 < region < |s.regions| && handle >= 0
      then var h := Header(size, region, handle, hint);
           s.(messages := s.messages + [Some(FromHeader(h, true))], created := s.created + multiset{TokenOf(h)})
      else s
    case Send(m, socket) =>
      if Live(s, m) && !s.messages[m].value.fQueued && socket < |s.sockets| then Sent(s, m, socket) else s
    case SendParts(ms, socket) =>
      if Sendable(s.messages, ms) && socket < |s.sockets| && |ms| != 1 then SentParts(s, ms, socket) else s
    case Receive(m, socket) =>
      if && Live(s, m) && s.messages[m].value == EMPTY && socket < |s.sockets|
         && s.sockets[socket] != [] && |s.sockets[socket][0]| <= 1
      then Received(s, m, socket) else s
    case ReceiveParts(socket) =>
      if socket < |s.sockets| && s.sockets[socket] != [] then ReceivedParts(s, socket) else s
    case Copy(m, from, handle) =>
      if && Live(s, m) && Live(s, from) && s.messages[m].value.fHandle < 0 && s.messages[from].value.fHandle != 0
         && handle >= 0 && handle !in s.chunks
      then Copied(s, m, from, handle) else s
    case SetUsedSize(m, size) =>
      if Live(s, m) && Owns(s.messages[m].value) && s.messages[m].value.fRegionId == 0 && size <= s.messages[m].value.fSize
      then Resized(s, m, size) else s
    case Destroy(m) => if Live(s, m) then Destroyed(s, m) else s
    case ReceiveAck(region) =>
      if region < |s.regions| && s.regions[region].acks != []
      then var r := s.regions[region];
           s.(regions := s.regions[region := Region(r.acks[1..], r.callbacks + [r.acks[0]])])
      else s
  }

  function DoAll(s: State, actions: seq<Action>): State {
    if actions == [] then s
    else Do(DoAll(s, actions[..|actions| - 1]), actions[|actions| - 1])
  }

  function Run(sockets: nat, regions: nat, actions: seq<Action>): State {
    DoAll(Initial(sockets, regions), actions)
  }

  // ----- counting tokens -----

  ghost function Sum<T>(q: seq<T>, f: T -> nat): nat {
    if q == [] then 0 else Sum(q[..|q| - 1], f) + f(q[|q| - 1])
  }

  lemma {:induction false} SumConcat<T>(a: seq<T>, b: seq<T>, f: T -> nat)
    ensures Sum(a + b, f) == Sum(a, f) + Sum(b, f)
  {
    if b == [] {
      assert a + b == a;
    } else {
      SumConcat(a, b[..|b| - 1], f);
      assert (a + b)[..|a + b| - 1] == a + b[..|b| - 1];
    }
  }

  lemma SumMore<T>(q: seq<T>, x: T, f: T -> nat)
    ensures Sum(q + [x], f) == Sum(q, f) + f(x)
  {
    assert (q + [x])[..|q|] == q;
  }

  lemma SumPop<T>(q: seq<T>, f: T -> nat)
    requires q != []
    ensures Sum(q, f) == f(q[0]) + Sum(q[1..], f)
  {
    assert q == [] + [q[0]] + q[1..];
    SumConcat([] + [q[0]], q[1..], f);
    SumMore([], q[0], f);
  }

  lemma SumUpdate<T>(q: seq<T>, i: nat, x: T, f: T -> nat)
    requires i < |q|
    ensures Sum(q[i := x], f) + f(q[i]) == Sum(q, f) + f(x)
  {
    assert q == q[..i] + [q[i]] + q[i + 1..];
    assert q[i := x] == q[..i] + [x] + q[i + 1..];
    SumConcat(q[..i] + [q[i]], q[i + 1..], f);
    SumConcat(q[..i] + [x], q[i + 1..], f);
    SumMore(q[..i], q[i], f);
    SumMore(q[..i], x, f);
  }

  lemma {:induction false} SumZero<T>(q: seq<T>, f: T -> nat)
    requires forall i | 0 <= i < |q| :: f(q[i]) == 0
    ensures Sum(q, f) == 0
  {
    if q != [] {
      SumZero(q[..|q| - 1], f);
    }
  }

  function Bit(b: bool): nat { if b then 1 else 0 }

  // How often token `t` is owned by a message, carried by a header, a frame, a socket, queued, delivered.
  ghost function OwnedBy(t: Token): Option<Message> -> nat {
    (m: Option<Message>) => Bit(m.Some? && Owns(m.value) && TokenOf(HeaderOf(m.value)) == t)
  }
  ghost function CarriedBy(t: Token): Header -> nat { (h: Header) => Bit(TokenOf(h) == t) }
  ghost function FrameHas(t: Token): seq<Header> -> nat { (frame: seq<Header>) => Sum(frame, CarriedBy(t)) }
  ghost function SocketHas(t: Token): seq<seq<Header>> -> nat { (q: seq<seq<Header>>) => Sum(q, FrameHas(t)) }
  ghost function AcksHave(t: Token): Region -> nat { (r: Region) => multiset(r.acks)[t] }
  ghost function CallbacksHave(t: Token): Region -> nat { (r: Region) => multiset(r.callbacks)[t] }

  ghost function Held(s: State, t: Token): nat { Sum(s.messages, OwnedBy(t)) }
  ghost function InFlight(s: State, t: Token): nat { Sum(s.sockets, SocketHas(t)) }
  ghost function Acked(s: State, t: Token): nat { Sum(s.regions, AcksHave(t)) }
  ghost function CalledBack(s: State, t: Token): nat { Sum(s.regions, CallbacksHave(t)) }

  // ----- the invariant -----

  /** A header still with its message describes it, and a message without a handle is a fresh one. */
  ghost predicate ProperMessage(m: Message, regions: nat) {
    && (m.meta.Some? && !m.fQueued ==> m.meta.value == HeaderOf(m) && m.fHandle >= 0)
    && (m.fHandle < 0 ==> m == EMPTY)
    && (m.fHandle >= 0 ==> m.fRegionId == 0 || m.fRegionId < regions)
  }

  ghost predicate ProperMessages(messages: seq<Option<Message>>, regions: nat) {
    forall i | 0 <= i < |messages| && messages[i].Some? :: ProperMessage(messages[i].value, regions)
  }

  ghost predicate ProperHeader(h: Header, regions: nat) {
    h.handle >= 0 && (h.regionId == 0 || h.regionId < regions)
  }

  ghost predicate ProperFrame(frame: seq<Header>, regions: nat) {
    forall i | 0 <= i < |frame| :: ProperHeader(frame[i], regions)
  }

  ghost predicate ProperSocket(q: seq<seq<Header>>, regions: nat) {
    forall i | 0 <= i < |q| :: ProperFrame(q[i], regions)
  }

  ghost predicate ProperRegion(r: Region, id: nat) {
    && |r.acks| <= ACK_CAPACITY
    && (forall i | 0 <= i < |r.acks| :: r.acks[i].Block? && r.acks[i].region == id)
    && (forall i | 0 <= i < |r.callbacks| :: r.callbacks[i].Block? && r.callbacks[i].region == id)
  }

  ghost predicate Proper(s: State) {
    && ProperMessages(s.messages, |s.regions|)
    && (forall i | 0 <= i < |s.sockets| :: ProperSocket(s.sockets[i], |s.regions|))
    && (forall i: nat | i < |s.regions| :: ProperRegion(s.regions[i], i))
    && (forall t :: t in s.deallocated ==> t.Chunk?)
  }

  /** Created is held, in flight, queued for acknowledgement, called back or deallocated, token by token. */
  ghost predicate Conserved(s: State, t: Token) {
    s.created[t] == Held(s, t) + InFlight(s, t) + Acked(s, t) + CalledBack(s, t) + s.deallocated[t]
  }

  /** An allocated chunk has exactly one owner, and nothing owns any other chunk. */
  ghost predicate SingleOwner(s: State, t: Token) {
    t.Chunk? ==> Held(s, t) + InFlight(s, t) == Bit(t.handle in s.chunks)
  }

  ghost predicate Inv(s: State) {
    && Proper(s)
    && (forall t :: Conserved(s, t))
    && (forall t :: SingleOwner(s, t))
  }

  // ----- sending and receiving -----

  lemma FrameOfOne(h: Header, t: Token)
    ensures Sum([h], CarriedBy(t)) == Bit(TokenOf(h) == t)
  {
    SumMore([], h, CarriedBy(t));
    assert [] + [h] == [h];
  }

  lemma SentTotals(s: State, m: nat, socket: nat, t: Token)
    requires Proper(s) && Live(s, m) && !s.messages[m].value.fQueued && socket < |s.sockets|
    ensures var s' := Sent(s, m, socket); Held(s', t) + InFlight(s', t) == Held(s, t) + InFlight(s, t)
  {
    var s', msg := Sent(s, m, socket), s.messages[m].value;
    var q, frame := s.sockets[socket], if msg.framed && msg.meta.Some? then [msg.meta.value] else [];
    assert ProperMessage(msg, |s.regions|);
    SumUpdate(s.messages, m, s'.messages[m], OwnedBy(t));
    SumUpdate(s.sockets, socket, q + [frame], SocketHas(t));
    SumMore(q, frame, FrameHas(t));
    if frame != [] {
      FrameOfOne(msg.meta.value, t);
    }
  }

  lemma QueuedOneMore(messages: seq<Option<Message>>, ms: seq<nat>)
    requires ms != [] && Sendable(messages, ms)
    ensures var front, last := ms[..|ms| - 1], ms[|ms| - 1];
            && Sendable(messages, front) && Queued(messages, front)[last] == messages[last]
            && Queued(messages, ms) == Queued(messages, front)[last := Some(messages[last].value.(fQueued := true))]
            && Metas(messages, ms) == Metas(messages, front) + [messages[last].value.meta.value]
  {
    var front, last := ms[..|ms| - 1], ms[|ms| - 1];
    assert ms == front + [last];
    assert HasHeader(messages, last) && last !in front;
  }

  lemma {:induction false} QueuedTotals(messages: seq<Option<Message>>, ms: seq<nat>, regions: nat, t: Token)
    requires Sendable(messages, ms) && ProperMessages(messages, regions)
    ensures Sum(Queued(messages, ms), OwnedBy(t)) + Sum(Metas(messages, ms), CarriedBy(t)) == Sum(messages, OwnedBy(t))
    decreases |ms|
  {
    if ms == [] {
      assert Queued(messages, ms) == messages;
    } else {
      var front, last := ms[..|ms| - 1], ms[|ms| - 1];
      QueuedOneMore(messages, ms);
      QueuedTotals(messages, front, regions, t);
      assert HasHeader(messages, last);
      var msg := messages[last].value;
      assert ProperMessage(msg, regions);
      SumUpdate(Queued(messages, front), last, Some(msg.(fQueued := true)), OwnedBy(t));
      SumMore(Metas(messages, front), msg.meta.value, CarriedBy(t));
    }
  }

  lemma SentPartsTotals(s: State, ms: seq<nat>, socket: nat, t: Token)
    requires Proper(s) && Sendable(s.messages, ms) && socket < |s.sockets|
    ensures var s' := SentParts(s, ms, socket); Held(s', t) + InFlight(s', t) == Held(s, t) + InFlight(s, t)
  {
    var q, frame := s.sockets[socket], Metas(s.messages, ms);
    QueuedTotals(s.messages, ms, |s.regions|, t);
    SumUpdate(s.sockets, socket, q + [frame], SocketHas(t));
    SumMore(q, frame, FrameHas(t));
  }

  lemma PoppedTotals(s: State, socket: nat, t: Token)
    requires socket < |s.sockets| && s.sockets[socket] != []
    ensures Sum(s.sockets[socket := s.sockets[socket][1..]], SocketHas(t)) + Sum(s.sockets[socket][0], CarriedBy(t)) == InFlight(s, t)
  {
    SumUpdate(s.sockets, socket, s.sockets[socket][1..], SocketHas(t));
    SumPop(s.sockets[socket], FrameHas(t));
    assert FrameHas(t)(s.sockets[socket][0]) == Sum(s.sockets[socket][0], CarriedBy(t));
  }

  lemma ReceivedTotals(s: State, m: nat, socket: nat, t: Token)
    requires Proper(s) && Live(s, m) && s.messages[m].value == EMPTY
    requires socket < |s.sockets| && s.sockets[socket] != [] && |s.sockets[socket][0]| <= 1
    ensures var s' := Received(s, m, socket); Held(s', t) + InFlight(s', t) == Held(s, t) + InFlight(s, t)
  {
    var s', frame := Received(s, m, socket), s.sockets[socket][0];
    PoppedTotals(s, socket, t);
    SumUpdate(s.messages, m, s'.messages[m], OwnedBy(t));
    assert ProperSocket(s.sockets[socket], |s.regions|);
    assert ProperFrame(frame, |s.regions|);
    if frame == [] {
      assert OwnedBy(t)(s'.messages[m]) == Sum(frame, CarriedBy(t)) == 0;
    } else {
      assert frame == [frame[0]];
      FrameOfOne(frame[0], t);
      assert OwnedBy(t)(s'.messages[m]) == Sum(frame, CarriedBy(t));
    }
  }

  lemma {:induction false} UnpackedTotals(frame: seq<Header>, regions: nat, t: Token)
    requires ProperFrame(frame, regions)
    ensures Sum(Unpacked(frame), OwnedBy(t)) == Sum(frame, CarriedBy(t))
  {
    if frame != [] {
      var front := frame[..|frame| - 1];
      UnpackedTotals(front, regions, t);
      assert Unpacked(frame)[..|frame| - 1] == Unpacked(front);
    }
  }

  lemma ReceivedPartsTotals(s: State, socket: nat, t: Token)
    requires Proper(s) && socket < |s.sockets| && s.sockets[socket] != []
    ensures var s' := ReceivedParts(s, socket); Held(s', t) + InFlight(s', t) == Held(s, t) + InFlight(s, t)
  {
    var frame := s.sockets[socket][0];
    assert ProperSocket(s.sockets[socket], |s.regions|);
    PoppedTotals(s, socket, t);
    UnpackedTotals(frame, |s.regions|, t);
    SumConcat(s.messages, Unpacked(frame), OwnedBy(t));
  }

  // ----- the other operations -----

  /** The token of a message added to those there were, or put in place of one. */
  lemma BalanceWith(s: State, s': State, t: Token, before: nat, after: nat)
    requires Conserved(s, t) && SingleOwner(s, t)
    requires s'.sockets == s.sockets && s'.regions == s.regions && s'.deallocated == s.deallocated
    requires Held(s', t) + before == Held(s, t) + after
    requires s'.created[t] + before == s.created[t] + after
    requires t.Chunk? ==> Bit(t.handle in s'.chunks) + before == Bit(t.handle in s.chunks) + after
    ensures Conserved(s', t) && SingleOwner(s', t)
  {
  }

  lemma AppendBalance(s: State, a: Action, t: Token)
    requires Inv(s) && (a.NewEmpty? || a.NewSized? || a.NewRegion?)
    ensures Conserved(Do(s, a), t) && SingleOwner(Do(s, a), t)
  {
    var s' := Do(s, a);
    assert Conserved(s, t) && SingleOwner(s, t);
    if s' != s {
      var added := s'.messages[|s.messages|];
      SumMore(s.messages, added, OwnedBy(t));
      BalanceWith(s, s', t, 0, OwnedBy(t)(added));
    }
  }

  lemma CopyBalance(s: State, m: nat, from: nat, handle: int, t: Token)
    requires Inv(s) && Live(s, m) && Live(s, from) && s.messages[m].value.fHandle < 0
    requires handle >= 0 && handle !in s.chunks
    ensures var s' := Copied(s, m, from, handle); Conserved(s', t) && SingleOwner(s', t)
  {
    var s' := Copied(s, m, from, handle);
    assert Conserved(s, t) && SingleOwner(s, t);
    assert ProperMessage(s.messages[m].value, |s.regions|);
    SumUpdate(s.messages, m, s'.messages[m], OwnedBy(t));
    BalanceWith(s, s', t, 0, OwnedBy(t)(s'.messages[m]));
  }

  lemma ResizeBalance(s: State, m: nat, size: nat, t: Token)
    requires Inv(s) && Live(s, m) && s.messages[m].value.fRegionId == 0
    ensures var s' := Resized(s, m, size); Conserved(s', t) && SingleOwner(s', t)
  {
    var s' := Resized(s, m, size);
    assert Conserved(s, t) && SingleOwner(s, t);
    SumUpdate(s.messages, m, s'.messages[m], OwnedBy(t));
    assert OwnedBy(t)(s'.messages[m]) == OwnedBy(t)(s.messages[m]);
    BalanceWith(s, s', t, 0, 0);
  }

  /** A managed chunk leaves its only owner for the segment, a region block for the region's queue. */
  lemma DestroyBalance(s: State, m: nat, t: Token)
    requires Inv(s) && Live(s, m)
    ensures Conserved(Destroyed(s, m), t) && SingleOwner(Destroyed(s, m), t)
  {
    var s', msg := Destroyed(s, m), s.messages[m].value;
    assert Conserved(s, t) && SingleOwner(s, t);
    SumUpdate(s.messages, m, None, OwnedBy(t));
    if s' != s && Owns(msg) && msg.fRegionId != 0 {
      DestroyRegionBalance(s, m, t);
    }
  }

  lemma DestroyRegionBalance(s: State, m: nat, t: Token)
    requires Inv(s) && Live(s, m) && Owns(s.messages[m].value) && s.messages[m].value.fRegionId != 0
    requires Destroyed(s, m) != s
    ensures Conserved(Destroyed(s, m), t) && SingleOwner(Destroyed(s, m), t)
  {
    var s', msg := Destroyed(s, m), s.messages[m].value;
    var r, block := s.regions[msg.fRegionId], TokenOf(HeaderOf(msg));
    assert Conserved(s, t) && SingleOwner(s, t);
    SumUpdate(s.messages, m, None, OwnedBy(t));
    SumUpdate(s.regions, msg.fRegionId, r.(acks := r.acks + [block]), AcksHave(t));
    SumUpdate(s.regions, msg.fRegionId, r.(acks := r.acks + [block]), CallbacksHave(t));
    assert multiset(r.acks + [block])[t] == multiset(r.acks)[t] + Bit(block == t);
  }

  lemma AckBalance(s: State, region: nat, t: Token)
    requires Inv(s)
    ensures Conserved(Do(s, ReceiveAck(region)), t) && SingleOwner(Do(s, ReceiveAck(region)), t)
  {
    var s' := Do(s, ReceiveAck(region));
    assert Conserved(s, t) && SingleOwner(s, t);
    if region < |s.regions| && s.regions[region].acks != [] {
      var r := s.regions[region];
      assert r.acks == [r.acks[0]] + r.acks[1..];
      SumUpdate(s.regions, region, s'.regions[region], AcksHave(t));
      SumUpdate(s.regions, region, s'.regions[region], CallbacksHave(t));
    }
  }

  // ----- every action keeps the balance -----

  lemma BalanceStep(s: State, a: Action, t: Token)
    requires Inv(s)
    ensures Conserved(Do(s, a), t) && SingleOwner(Do(s, a), t)
  {
    assert Conserved(s, t) && SingleOwner(s, t);
    if Do(s, a) != s {
      match a
      case Send(m, socket) => SentTotals(s, m, socket, t);
      case SendParts(ms, socket) => SentPartsTotals(s, ms, socket, t);
      case Receive(m, socket) => ReceivedTotals(s, m, socket, t);
      case ReceiveParts(socket) => ReceivedPartsTotals(s, socket, t);
      case Destroy(m) => DestroyBalance(s, m, t);
      case ReceiveAck(region) => AckBalance(s, region, t);
      case Copy(m, from, handle) => CopyBalance(s, m, from, handle, t);
      case SetUsedSize(m, size) => ResizeBalance(s, m, size, t);
      case _ => AppendBalance(s, a, t);
    }
  }

  lemma ProperStep(s: State, a: Action)
    requires Proper(s)
    ensures Proper(Do(s, a))
  {
    var s', n := Do(s, a), |s.regions|;
    forall i | 0 <= i < |s'.messages| && s'.messages[i].Some? ensures ProperMessage(s'.messages[i].value, n) {
      ProperMessageStep(s, a, i);
    }
    forall i | 0 <= i < |s'.sockets| ensures ProperSocket(s'.sockets[i], n) {
      ProperSocketStep(s, a, i);
    }
    forall i: nat | i < |s'.regions| ensures ProperRegion(s'.regions[i], i) {
      assert ProperRegion(s.regions[i], i);
    }
  }

  lemma ProperMessageStep(s: State, a: Action, i: nat)
    requires Proper(s) && i < |Do(s, a).messages| && Do(s, a).messages[i].Some?
    ensures ProperMessage(Do(s, a).messages[i].value, |s.regions|)
  {
    if i >= |s.messages| {
      AppendedProper(s, a, i);
    } else {
      ChangedProper(s, a, i);
    }
  }

  lemma AppendedProper(s: State, a: Action, i: nat)
    requires Proper(s) && |s.messages| <= i < |Do(s, a).messages| && Do(s, a).messages[i].Some?
    ensures ProperMessage(Do(s, a).messages[i].value, |s.regions|)
  {
    if a.ReceiveParts? {
      ReceivedProper(s, a.socket);
    }
  }

  lemma QueuedProper(s: State, ms: seq<nat>, socket: nat, i: nat)
    requires Proper(s) && i < |s.messages|
    ensures var s' := Do(s, SendParts(ms, socket));
            i < |s'.messages| && (s'.messages[i].Some? ==> s.messages[i].Some? && ProperMessage(s'.messages[i].value, |s.regions|))
  {
    assert s.messages[i].Some? ==> ProperMessage(s.messages[i].value, |s.regions|);
  }

  lemma ChangedProper(s: State, a: Action, i: nat)
    requires Proper(s) && i < |s.messages| && i < |Do(s, a).messages| && Do(s, a).messages[i].Some?
    ensures ProperMessage(Do(s, a).messages[i].value, |s.regions|)
  {
    if a.SendParts? {
      QueuedProper(s, a.ms, a.socket, i);
    } else {
      OthersProper(s, a, i);
    }
  }

  lemma ReceivedOneProper(s: State, m: nat, socket: nat, i: nat)
    requires Proper(s) && i < |s.messages|
    ensures var s' := Do(s, Receive(m, socket));
            |s'.messages| == |s.messages| && (s'.messages[i].Some? ==> ProperMessage(s'.messages[i].value, |s.regions|))
  {
    assert s.messages[i].Some? ==> ProperMessage(s.messages[i].value, |s.regions|);
    if socket < |s.sockets| && s.sockets[socket] != [] {
      ReceivedProper(s, socket);
    }
  }

  lemma OthersProper(s: State, a: Action, i: nat)
    requires Proper(s) && !a.SendParts? && i < |s.messages| && i < |Do(s, a).messages| && Do(s, a).messages[i].Some?
    ensures ProperMessage(Do(s, a).messages[i].value, |s.regions|)
  {
    if a.Receive? {
      ReceivedOneProper(s, a.m, a.socket, i);
    } else {
      assert s.messages[i].Some?;
      assert ProperMessage(s.messages[i].value, |s.regions|);
    }
  }

  lemma ReceivedProper(s: State, socket: nat)
    requires Proper(s) && socket < |s.sockets| && s.sockets[socket] != []
    ensures forall k, framed | 0 <= k < |s.sockets[socket][0]| ::
              ProperMessage(FromHeader(s.sockets[socket][0][k], framed), |s.regions|)
  {
    assert ProperSocket(s.sockets[socket], |s.regions|);
    assert ProperFrame(s.sockets[socket][0], |s.regions|);
    forall k, framed | 0 <= k < |s.sockets[socket][0]|
      ensures ProperMessage(FromHeader(s.sockets[socket][0][k], framed), |s.regions|)
    {
      assert ProperHeader(s.sockets[socket][0][k], |s.regions|);
    }
  }

  lemma ProperSocketStep(s: State, a: Action, i: nat)
    requires Proper(s) && i < |Do(s, a).sockets|
    ensures |Do(s, a).sockets| == |s.sockets| && ProperSocket(Do(s, a).sockets[i], |s.regions|)
  {
    assert ProperSocket(s.sockets[i], |s.regions|);
    if a.Send? && Do(s, a) != s {
      assert ProperMessage(s.messages[a.m].value, |s.regions|);
    } else if a.SendParts? && Do(s, a) != s {
      var frame := Metas(s.messages, a.ms);
      forall k | 0 <= k < |frame| ensures ProperHeader(frame[k], |s.regions|) {
        assert ProperMessage(s.messages[a.ms[k]].value, |s.regions|);
      }
    }
  }

  lemma InitialInv(sockets: nat, regions: nat)
    ensures Inv(Initial(sockets, regions))
  {
    var s := Initial(sockets, regions);
    forall t ensures Conserved(s, t) && SingleOwner(s, t) {
      SumZero(s.sockets, SocketHas(t));
      SumZero(s.regions, AcksHave(t));
      SumZero(s.regions, CallbacksHave(t));
    }
  }

  lemma {:induction false} RunInv(sockets: nat, regions: nat, actions: seq<Action>)
    ensures Inv(Run(sockets, regions, actions))
  {
    if actions == [] {
      InitialInv(sockets, regions);
    } else {
      var before, a := Run(sockets, regions, actions[..|actions| - 1]), actions[|actions| - 1];
      RunInv(sockets, regions, actions[..|actions| - 1]);
      forall t ensures Conserved(Do(before, a), t) && SingleOwner(Do(before, a), t) {
        BalanceStep(before, a, t);
      }
      ProperStep(before, a);
    }
  }

  // ----- what holds over every run -----

  lemma {:induction false} SumAtLeast<T>(q: seq<T>, i: nat, f: T -> nat)
    requires i < |q|
    ensures f(q[i]) <= Sum(q, f)
  {
    if i < |q| - 1 {
      SumAtLeast(q[..|q| - 1], i, f);
    }
  }

  lemma {:induction false} SumAtLeastTwo<T>(q: seq<T>, i: nat, j: nat, f: T -> nat)
    requires i < j < |q|
    ensures f(q[i]) + f(q[j]) <= Sum(q, f)
  {
    if j < |q| - 1 {
      SumAtLeastTwo(q[..|q| - 1], i, j, f);
    } else {
      SumAtLeast(q[..j], i, f);
    }
  }

  lemma NoChunkInRegions(s: State, h: int)
    requires Proper(s)
    ensures Acked(s, Chunk(h)) == 0 && CalledBack(s, Chunk(h)) == 0
  {
    forall i | 0 <= i < |s.regions|
      ensures AcksHave(Chunk(h))(s.regions[i]) == 0 && CallbacksHave(Chunk(h))(s.regions[i]) == 0
    {
      assert ProperRegion(s.regions[i], i);
    }
    SumZero(s.regions, AcksHave(Chunk(h)));
    SumZero(s.regions, CallbacksHave(Chunk(h)));
  }

  /**
   A chunk that is allocated is owned once, by an unqueued message or by a header in flight; one
   that is not has no owner; and it has been deallocated as often as it was allocated, or once less.
   */
  lemma ChunkHasOneOwner(sockets: nat, regions: nat, actions: seq<Action>, h: int)
    ensures var s := Run(sockets, regions, actions);
            && Held(s, Chunk(h)) + InFlight(s, Chunk(h)) == Bit(h in s.chunks)
            && s.created[Chunk(h)] == s.deallocated[Chunk(h)] + Bit(h in s.chunks)
  {
    RunInv(sockets, regions, actions);
    var s := Run(sockets, regions, actions);
    assert Conserved(s, Chunk(h)) && SingleOwner(s, Chunk(h));
    NoChunkInRegions(s, h);
  }

  /** A destructor only frees a chunk that is allocated. */
  lemma FreesOnlyAllocated(sockets: nat, regions: nat, actions: seq<Action>, m: nat)
    requires var s := Run(sockets, regions, actions);
             Live(s, m) && Owns(s.messages[m].value) && s.messages[m].value.fRegionId == 0
    ensures var s := Run(sockets, regions, actions); s.messages[m].value.fHandle in s.chunks
  {
    var s := Run(sockets, regions, actions);
    var h := s.messages[m].value.fHandle;
    ChunkHasOneOwner(sockets, regions, actions, h);
    SumAtLeast(s.messages, m, OwnedBy(Chunk(h)));
  }

  /** Two messages never own the same chunk. */
  lemma NoDoubleFree(sockets: nat, regions: nat, actions: seq<Action>, m: nat, n: nat)
    requires var s := Run(sockets, regions, actions);
             && Live(s, m) && Owns(s.messages[m].value) && s.messages[m].value.fRegionId == 0
             && m != n && Live(s, n) && Owns(s.messages[n].value) && s.messages[n].value.fRegionId == 0
    ensures var s := Run(sockets, regions, actions);
            s.messages[m].value.fHandle != s.messages[n].value.fHandle
  {
    var s := Run(sockets, regions, actions);
    var h := s.messages[m].value.fHandle;
    ChunkHasOneOwner(sockets, regions, actions, h);
    SumAtLeastTwo(s.messages, if m < n then m else n, if m < n then n else m, OwnedBy(Chunk(h)));
  }

  /**
   A region block handed out is held, in flight, queued as an ack, or has been given to the
   callback, with the handle, size and hint it was handed out with; and no ack queue overflows.
   */
  lemma RegionBlocksConserved(sockets: nat, regions: nat, actions: seq<Action>, region: nat, handle: int, size: nat, hint: nat)
    ensures var s, b := Run(sockets, regions, actions), Block(region, handle, size, hint);
            && s.created[b] == Held(s, b) + InFlight(s, b) + Acked(s, b) + CalledBack(s, b)
            && forall i: nat | i < |s.regions| ::
                 |s.regions[i].acks| <= ACK_CAPACITY && forall t | t in s.regions[i].callbacks :: t.Block? && t.region == i
  {
    RunInv(sockets, regions, actions);
    var s, b := Run(sockets, regions, actions), Block(region, handle, size, hint);
    assert Conserved(s, b);
    assert s.deallocated[b] == 0;
    forall i: nat | i < |s.regions|
      ensures |s.regions[i].acks| <= ACK_CAPACITY && forall t | t in s.regions[i].callbacks :: t.Block? && t.region == i
    {
      assert ProperRegion(s.regions[i], i);
    }
  }

  // ----- when a send hands over what the message owns -----

  /** The action that made message `m`. */
  function Maker(sockets: nat, regions: nat, actions: seq<Action>, m: nat): Option<Action> {
    if actions == [] then None
    else if m < |Run(sockets, regions, actions[..|actions| - 1]).messages| then Maker(sockets, regions, actions[..|actions| - 1], m)
    else if m < |Run(sockets, regions, actions).messages| then Some(actions[|actions| - 1])
    else None
  }

  predicate IsPart(sockets: nat, regions: nat, actions: seq<Action>, m: nat) {
    var maker := Maker(sockets, regions, actions, m);
    maker.Some? && maker.value.ReceiveParts?
  }

  /** A part has its handle from the start and its frame never gets a size; every other owner's frame has one. */
  ghost predicate FrameInv(msg: Message, part: bool) {
    && (part ==> msg.fHandle >= 0)
    && (Owns(msg) ==> (msg.framed <==> !part))
    && (Owns(msg) && msg.framed ==> msg.meta.Some?)
  }

  lemma FrameStep(s: State, a: Action, m: nat, part: bool)
    requires Proper(s) && Live(s, m) && FrameInv(s.messages[m].value, part) && Live(Do(s, a), m)
    ensures FrameInv(Do(s, a).messages[m].value, part)
  {
    if a.Receive? && Do(s, a) != s {
      assert a.m == m ==> s.messages[m].value == EMPTY;
    }
  }

  lemma FrameNew(s: State, a: Action, m: nat)
    requires Proper(s) && |s.messages| <= m && Live(Do(s, a), m)
    ensures FrameInv(Do(s, a).messages[m].value, a.ReceiveParts?)
  {
    if a.ReceiveParts? {
      assert ProperSocket(s.sockets[a.socket], |s.regions|);
      assert ProperFrame(s.sockets[a.socket][0], |s.regions|);
      assert ProperHeader(s.sockets[a.socket][0][m - |s.messages|], |s.regions|);
    }
  }

  lemma NeverFewer(s: State, a: Action)
    ensures |s.messages| <= |Do(s, a).messages|
  {
  }

  lemma QueueingRevivesNone(s: State, ms: seq<nat>, socket: nat, m: nat)
    requires m < |s.messages| && Live(Do(s, SendParts(ms, socket)), m)
    ensures Live(s, m)
  {
  }

  lemma OthersReviveNone(s: State, a: Action, m: nat)
    requires m < |s.messages| && !a.SendParts? && Live(Do(s, a), m)
    ensures Live(s, m)
  {
  }

  lemma StaysDestroyed(s: State, a: Action, m: nat)
    requires m < |s.messages|
    ensures m < |Do(s, a).messages|
    ensures Live(Do(s, a), m) ==> Live(s, m)
  {
    NeverFewer(s, a);
    if Live(Do(s, a), m) {
      if a.SendParts? {
        QueueingRevivesNone(s, a.ms, a.socket, m);
      } else {
        OthersReviveNone(s, a, m);
      }
    }
  }

  lemma {:induction false} FramesKnown(sockets: nat, regions: nat, actions: seq<Action>, m: nat)
    requires Live(Run(sockets, regions, actions), m)
    ensures FrameInv(Run(sockets, regions, actions).messages[m].value, IsPart(sockets, regions, actions, m))
  {
    if actions != [] {
      var front, a := actions[..|actions| - 1], actions[|actions| - 1];
      var before := Run(sockets, regions, front);
      RunInv(sockets, regions, front);
      if m < |before.messages| {
        StaysDestroyed(before, a, m);
        FramesKnown(sockets, regions, front, m);
        FrameStep(before, a, m, IsPart(sockets, regions, front, m));
      } else {
        FrameNew(before, a, m);
      }
    }
  }

  /** The header of the message goes out and the message owns nothing any more. */
  predicate HandsOver(s: State, s': State, m: nat, socket: nat)
    requires Live(s, m) && socket < |s.sockets| && |s'.sockets| == |s.sockets|
  {
    && s'.sockets[socket] == s.sockets[socket] + [[HeaderOf(s.messages[m].value)]]
    && Live(s', m) && !Owns(s'.messages[m].value)
  }

  /**
   In every run, sending a message that owns a chunk or block hands it over exactly when the message
   was not made by a multipart receive; such a part goes out as an empty frame and stays with its sender.
   */
  lemma SendHandsOverExactly(sockets: nat, regions: nat, actions: seq<Action>, m: nat, socket: nat)
    requires var s := Run(sockets, regions, actions); Live(s, m) && Owns(s.messages[m].value) && socket < |s.sockets|
    ensures var s := Run(sockets, regions, actions);
            var s' := Do(s, Send(m, socket));
            && |s'.sockets| == |s.sockets|
            && (HandsOver(s, s', m, socket) <==> !IsPart(sockets, regions, actions, m))
            && (IsPart(sockets, regions, actions, m) ==>
                  s'.sockets[socket] == s.sockets[socket] + [[]] && Live(s', m) && Owns(s'.messages[m].value))
  {
    RunInv(sockets, regions, actions);
    FramesKnown(sockets, regions, actions, m);
    var s := Run(sockets, regions, actions);
    assert ProperMessage(s.messages[m].value, |s.regions|);
  }

  lemma RunMore(sockets: nat, regions: nat, actions: seq<Action>, a: Action)
    ensures Run(sockets, regions, actions + [a]) == Do(Run(sockets, regions, actions), a)
    ensures forall m: nat | |Run(sockets, regions, actions).messages| <= m < |Run(sockets, regions, actions + [a]).messages| ::
              Maker(sockets, regions, actions + [a], m) == Some(a)
  {
    assert (actions + [a])[..|actions|] == actions;
  }

  lemma ReceivedPartOwns(s: State, from: nat, i: nat)
    requires Proper(s) && from < |s.sockets| && s.sockets[from] != [] && i < |s.sockets[from][0]|
    ensures var s' := Do(s, ReceiveParts(from));
            |s'.sockets| == |s.sockets| && Live(s', |s.messages| + i) && Owns(s'.messages[|s.messages| + i].value)
  {
    assert ProperSocket(s.sockets[from], |s.regions|);
    assert ProperFrame(s.sockets[from][0], |s.regions|);
    assert ProperHeader(s.sockets[from][0][i], |s.regions|);
  }

  /** Receiving a multipart message makes such parts, each owning what its sender handed over. */
  lemma ReceivingMakesParts(sockets: nat, regions: nat, actions: seq<Action>, from: nat, i: nat)
    requires var s := Run(sockets, regions, actions);
             from < |s.sockets| && s.sockets[from] != [] && i < |s.sockets[from][0]|
    ensures var m := |Run(sockets, regions, actions).messages| + i;
            var s := Run(sockets, regions, actions + [ReceiveParts(from)]);
            && from < |s.sockets| && Live(s, m) && Owns(s.messages[m].value)
            && IsPart(sockets, regions, actions + [ReceiveParts(from)], m)
  {
    RunInv(sockets, regions, actions);
    RunMore(sockets, regions, actions, ReceiveParts(from));
    ReceivedPartOwns(Run(sockets, regions, actions), from, i);
  }

  lemma OneMade(size: nat, h: nat)
    ensures var s := Run(1, 0, [NewSized(size, h)]);
            s.messages == [Some(WithChunk(EMPTY, h, size))] && s.sockets == [[]] && s.chunks == {h}
  {
    RunMore(1, 0, [], NewSized(size, h));
    assert [] + [NewSized(size, h)] == [NewSized(size, h)];
  }

  lemma NewSizedAppends(s: State, size: nat, h: nat)
    requires h !in s.chunks
    ensures var s' := Do(s, NewSized(size, h));
            s'.messages == s.messages + [Some(WithChunk(EMPTY, h, size))] && s'.sockets == s.sockets
  {
  }

  lemma TwoMade(size: nat, h: nat, size': nat, h': nat) returns (actions: seq<Action>)
    requires h != h'
    ensures var s := Run(1, 0, actions);
            && s.messages == [Some(WithChunk(EMPTY, h, size))] + [Some(WithChunk(EMPTY, h', size'))]
            && s.sockets == [[]]
  {
    var first := [NewSized(size, h)];
    OneMade(size, h);
    NewSizedAppends(Run(1, 0, first), size', h');
    RunMore(1, 0, first, NewSized(size', h'));
    actions := first + [NewSized(size', h')];
  }

  lemma TwoTogether(s: State)
    requires Sendable(s.messages, [0, 1]) && s.sockets == [[]]
    ensures var s' := Do(s, SendParts([0, 1], 0)); |s'.sockets| == 1 && |s'.sockets[0]| == 1 && |s'.sockets[0][0]| == 2
  {
  }

  /** A run with a multipart message of two chunks on its way. */
  lemma TwoSentTogether(size: nat, h: nat, size': nat, h': nat) returns (actions: seq<Action>)
    requires h != h'
    ensures var s := Run(1, 0, actions); |s.sockets| == 1 && |s.sockets[0]| == 1 && |s.sockets[0][0]| == 2
  {
    var made := TwoMade(size, h, size', h');
    RunMore(1, 0, made, SendParts([0, 1], 0));
    TwoTogether(Run(1, 0, made));
    actions := made + [SendParts([0, 1], 0)];
  }

  /** It does happen: of any two chunks sent together, the first is received and cannot be sent on alone. */
  lemma PartSentAloneStays(size: nat, h: nat, size': nat, h': nat) returns (actions: seq<Action>, m: nat)
    requires h != h'
    ensures var s := Run(1, 0, actions);
            && |s.sockets| == 1 && Live(s, m) && Owns(s.messages[m].value)
            && |Do(s, Send(m, 0)).sockets| == 1 && !HandsOver(s, Do(s, Send(m, 0)), m, 0)
  {
    var sent := TwoSentTogether(size, h, size', h');
    m := |Run(1, 0, sent).messages|;
    ReceivingMakesParts(1, 0, sent, 0, 0);
    actions := sent + [ReceiveParts(0)];
    RunMore(1, 0, sent, ReceiveParts(0));
    SendHandsOverExactly(1, 0, actions, m, 0);
  }

  // ----- acknowledgements -----

  /** All blocks of a region that have come back, called back or not yet. */
  function ComeBack(s: State, r: nat): seq<Token>
    requires r < |s.regions|
  {
    s.regions[r].callbacks + s.regions[r].acks
  }

  /** The block of the message, or nothing, has come back. */
  ghost predicate Grew(s: State, a: Action, s': State, r: nat)
    requires r < |s.regions|
  {
    && |s'.regions| == |s.regions|
    && ComeBack(s, r) <= ComeBack(s', r) && s.regions[r].callbacks <= s'.regions[r].callbacks
    && (ComeBack(s', r) != ComeBack(s, r) ==>
          && a.Destroy? && Live(s, a.m) && !Live(s', a.m) && s.messages[a.m].value.fRegionId == r
          && ComeBack(s', r) == ComeBack(s, r) + [TokenOf(HeaderOf(s.messages[a.m].value))])
  }

  lemma OthersLeaveRegions(s: State, a: Action)
    requires !a.Destroy? && !a.ReceiveAck?
    ensures Do(s, a).regions == s.regions
  {
  }

  lemma AckGrows(s: State, region: nat, r: nat)
    requires r < |s.regions|
    ensures Grew(s, ReceiveAck(region), Do(s, ReceiveAck(region)), r)
  {
    var acks := s.regions[r].acks;
    if acks != [] {
      assert [acks[0]] + acks[1..] == acks;
    }
  }

  lemma DestroyGrows(s: State, m: nat, r: nat)
    requires r < |s.regions|
    ensures Grew(s, Destroy(m), Do(s, Destroy(m)), r)
  {
  }

  /** An action adds the block of a message it destroys, or nothing, and changes no order. */
  lemma ComeBackGrows(s: State, a: Action, r: nat)
    requires r < |s.regions|
    ensures Grew(s, a, Do(s, a), r)
  {
    match a
    case ReceiveAck(region) => AckGrows(s, region, r);
    case Destroy(m) => DestroyGrows(s, m, r);
    case _ => OthersLeaveRegions(s, a);
  }

  lemma {:induction false} CalledBackInOrder(s: State, more: seq<Action>, r: nat)
    requires Inv(s) && r < |s.regions|
    ensures |DoAll(s, more).regions| == |s.regions| && Inv(DoAll(s, more))
    ensures ComeBack(s, r) <= ComeBack(DoAll(s, more), r)
  {
    if more != [] {
      var front, a := more[..|more| - 1], more[|more| - 1];
      CalledBackInOrder(s, front, r);
      InvStep(DoAll(s, front), a);
      ComeBackGrows(DoAll(s, front), a, r);
    }
  }

  lemma InvStep(s: State, a: Action)
    requires Inv(s)
    ensures Inv(Do(s, a))
  {
    forall t
      ensures Conserved(Do(s, a), t) && SingleOwner(Do(s, a), t)
    {
      BalanceStep(s, a, t);
    }
    ProperStep(s, a);
  }

  // ----- what is sent is what arrives -----

  /** The header in the frame of a message that owns something describes the message. */
  lemma HeaderDescribes(s: State, m: nat)
    requires Proper(s) && HasHeader(s.messages, m)
    ensures s.messages[m].value.meta == Some(HeaderOf(s.messages[m].value))
  {
    assert ProperMessage(s.messages[m].value, |s.regions|);
  }

  /** Receiving a multipart message makes one message for each header, in the order of the headers. */
  lemma PartsInOrder(s: State, from: nat, i: nat)
    requires from < |s.sockets| && s.sockets[from] != [] && i < |s.sockets[from][0]|
    ensures var s' := Do(s, ReceiveParts(from));
            && |s'.messages| == |s.messages| + |s.sockets[from][0]|
            && Live(s', |s.messages| + i) && HeaderOf(s'.messages[|s.messages| + i].value) == s.sockets[from][0][i]
            && !s'.messages[|s.messages| + i].value.fQueued
  {
  }

  predicate FrameAt(s: State, k: nat, j: nat, frame: seq<Header>) {
    k < |s.sockets| && j < |s.sockets[k]| && s.sockets[k][j] == frame
  }

  ghost predicate Describes(frame: seq<Header>, messages: seq<Option<Message>>, ms: seq<nat>)
    requires Sendable(messages, ms)
  {
    |frame| == |ms| && forall i | 0 <= i < |ms| :: frame[i] == HeaderOf(messages[ms[i]].value)
  }

  /** A frame of several messages goes to the end of its socket and describes them in their order. */
  lemma FrameAtEnd(s: State, ms: seq<nat>, k: nat) returns (frame: seq<Header>)
    requires Proper(s) && Sendable(s.messages, ms) && |ms| != 1 && k < |s.sockets|
    ensures Describes(frame, s.messages, ms) && FrameAt(Do(s, SendParts(ms, k)), k, |s.sockets[k]|, frame)
  {
    frame := Metas(s.messages, ms);
    forall i | 0 <= i < |ms|
      ensures frame[i] == HeaderOf(s.messages[ms[i]].value)
    {
      HeaderDescribes(s, ms[i]);
    }
  }

  /** The action takes the first frame out of socket `k`. */
  predicate TakesFrame(s: State, a: Action, k: nat) {
    match a
    case Receive(m, socket) =>
      && socket == k && Live(s, m) && s.messages[m].value == EMPTY && k < |s.sockets|
      && s.sockets[k] != [] && |s.sockets[k][0]| <= 1
    case ReceiveParts(socket) => socket == k && k < |s.sockets| && s.sockets[k] != []
    case _ => false
  }

  lemma FrameMoves(s: State, a: Action, k: nat, j: nat, frame: seq<Header>)
    requires FrameAt(s, k, j, frame) && (TakesFrame(s, a, k) ==> j > 0)
    ensures FrameAt(Do(s, a), k, if TakesFrame(s, a, k) then j - 1 else j, frame)
  {
  }

  /** How many frames some actions take out of socket `k`. */
  function FramesTaken(s: State, actions: seq<Action>, k: nat): nat {
    if actions == [] then 0
    else
      var front := actions[..|actions| - 1];
      FramesTaken(s, front, k) + Bit(TakesFrame(DoAll(s, front), actions[|actions| - 1], k))
  }

  lemma FramesTakenMore(s: State, actions: seq<Action>, k: nat, before: State)
    requires actions != [] && before == DoAll(s, actions[..|actions| - 1])
    ensures FramesTaken(s, actions, k) == FramesTaken(s, actions[..|actions| - 1], k) + Bit(TakesFrame(before, actions[|actions| - 1], k))
    ensures DoAll(s, actions) == Do(before, actions[|actions| - 1])
  {
  }

  /** Sockets are first in, first out: whatever else happens, frame `j` is first after `j` frames are taken. */
  lemma {:induction false} FramesInOrder(s: State, actions: seq<Action>, k: nat, j: nat, frame: seq<Header>)
    requires FrameAt(s, k, j, frame) && FramesTaken(s, actions, k) <= j
    ensures FrameAt(DoAll(s, actions), k, j - FramesTaken(s, actions, k), frame)
  {
    if actions != [] {
      var front := actions[..|actions| - 1];
      var before := DoAll(s, front);
      FramesTakenMore(s, actions, k, before);
      FramesInOrder(s, front, k, j, frame);
      FrameMoves(before, actions[|actions| - 1], k, j - FramesTaken(s, front, k), frame);
    }
  }

  /** The messages from `n` on are described, in order, by the frame. */
  ghost predicate CameOut(s: State, n: nat, frame: seq<Header>) {
    && |s.messages| == n + |frame|
    && forall j: nat | n <= j < |s.messages| :: Live(s, j) && HeaderOf(s.messages[j].value) == frame[j - n]
  }

  lemma FrameComesOut(s: State, k: nat, frame: seq<Header>)
    requires FrameAt(s, k, 0, frame)
    ensures CameOut(Do(s, ReceiveParts(k)), |s.messages|, frame)
  {
    var s', n := Do(s, ReceiveParts(k)), |s.messages|;
    forall j: nat | n <= j < |s'.messages|
      ensures Live(s', j) && HeaderOf(s'.messages[j].value) == frame[j - n]
    {
      PartsInOrder(s, k, j - n);
    }
  }

  /**
   From end to end: messages sent together, after whatever happens until the frames before theirs have been
   taken, come out as new messages in the same order, each with its handle, size, region and hint.
   */
  lemma PartsArriveInOrder(sockets: nat, regions: nat, actions: seq<Action>, ms: seq<nat>, k: nat, more: seq<Action>)
    returns (frame: seq<Header>)
    requires var s := Run(sockets, regions, actions);
             && Sendable(s.messages, ms) && |ms| != 1 && k < |s.sockets|
             && FramesTaken(Do(s, SendParts(ms, k)), more, k) == |s.sockets[k]|
    ensures Describes(frame, Run(sockets, regions, actions).messages, ms)
    ensures var before := DoAll(Do(Run(sockets, regions, actions), SendParts(ms, k)), more);
            CameOut(Do(before, ReceiveParts(k)), |before.messages|, frame)
  {
    RunInv(sockets, regions, actions);
    var s := Run(sockets, regions, actions);
    frame := FrameAtEnd(s, ms, k);
    FramesInOrder(Do(s, SendParts(ms, k)), more, k, |s.sockets[k]|, frame);
    FrameComesOut(DoAll(Do(s, SendParts(ms, k)), more), k, frame);
  }

  lemma AloneAtEnd(s: State, m: nat, k: nat)
    requires Proper(s) && Live(s, m) && !s.messages[m].value.fQueued && s.messages[m].value.framed
    requires s.messages[m].value.meta.Some? && k < |s.sockets|
    ensures Do(s, Send(m, k)).sockets == s.sockets[k := s.sockets[k] + [[HeaderOf(s.messages[m].value)]]]
    ensures FrameAt(Do(s, Send(m, k)), k, |s.sockets[k]|, [HeaderOf(s.messages[m].value)])
  {
    HeaderDescribes(s, m);
  }

  lemma ReceivedAlone(s: State, m: nat, k: nat, h: Header)
    requires Live(s, m) && s.messages[m].value == EMPTY && FrameAt(s, k, 0, [h])
    ensures var s' := Do(s, Receive(m, k));
            Live(s', m) && HeaderOf(s'.messages[m].value) == h && !s'.messages[m].value.fQueued && s'.messages[m].value.framed
  {
  }

  /** The same for a message sent alone and received into an empty one. */
  lemma MessageArrives(sockets: nat, regions: nat, actions: seq<Action>, m: nat, k: nat, more: seq<Action>, n: nat)
    requires var s := Run(sockets, regions, actions);
             && Live(s, m) && Owns(s.messages[m].value) && !IsPart(sockets, regions, actions, m) && k < |s.sockets|
             && FramesTaken(Do(s, Send(m, k)), more, k) == |s.sockets[k]|
    requires var before := DoAll(Do(Run(sockets, regions, actions), Send(m, k)), more);
             Live(before, n) && before.messages[n].value == EMPTY
    ensures var s := Run(sockets, regions, actions);
            var after := Do(DoAll(Do(s, Send(m, k)), more), Receive(n, k));
            && Live(after, n) && Owns(after.messages[n].value)
            && HeaderOf(after.messages[n].value) == HeaderOf(s.messages[m].value)
  {
    RunInv(sockets, regions, actions);
    FramesKnown(sockets, regions, actions, m);
    var s := Run(sockets, regions, actions);
    AloneAtEnd(s, m, k);
    var sent := Do(s, Send(m, k));
    FramesInOrder(sent, more, k, |s.sockets[k]|, [HeaderOf(s.messages[m].value)]);
    ReceivedAlone(DoAll(sent, more), n, k, HeaderOf(s.messages[m].value));
  }

  /** A new message owns what it was asked for: a chunk of the size, or the block with the hint its region is to be told. */
  lemma MadeAsAsked(s: State, size: nat, handle: nat, region: nat, hint: nat)
    ensures handle !in s.chunks ==>
              var s' := Do(s, NewSized(size, handle));
              && CameOut(s', |s.messages|, [Header(size, 0, handle, 0)]) && Owns(s'.messages[|s.messages|].value)
              && s'.chunks == s.chunks + {handle}
    ensures 0 < region < |s.regions| ==>
              var s' := Do(s, NewRegion(region, handle, size, hint));
              && CameOut(s', |s.messages|, [Header(size, region, handle, hint)]) && Owns(s'.messages[|s.messages|].value)
              && s'.chunks == s.chunks
    ensures CameOut(Do(s, NewEmpty), |s.messages|, [HeaderOf(EMPTY)]) && !Owns(EMPTY)
  {
  }

  /** A copy is a chunk of its own of the source's size; it is made exactly into an empty message from one whose handle is not 0. */
  lemma CopyExactly(s: State, m: nat, from: nat, handle: nat)
    requires Proper(s) && Live(s, m) && Live(s, from) && handle !in s.chunks
    ensures var s' := Do(s, Copy(m, from, handle));
            && (s' != s <==> s.messages[m].value == EMPTY && s.messages[from].value.fHandle != 0)
            && (s' != s ==> && Live(s', m) && Owns(s'.messages[m].value)
                            && HeaderOf(s'.messages[m].value) == Header(s.messages[from].value.fSize, 0, handle, 0)
                            && (forall i | 0 <= i < |s.messages| && i != m :: s'.messages[i] == s.messages[i]))
  {
    assert ProperMessage(s.messages[m].value, |s.regions|);
    if s.messages[m].value == EMPTY && s.messages[from].value.fHandle != 0 {
      assert handle in Do(s, Copy(m, from, handle)).chunks;
    }
  }

  /** A size that does not grow is taken over by a chunk message and by the header it will be sent with. */
  lemma UsedSizeIsSent(s: State, m: nat, size: nat, k: nat)
    requires Proper(s) && Live(s, m) && Owns(s.messages[m].value) && s.messages[m].value.fRegionId == 0
    requires s.messages[m].value.framed && s.messages[m].value.meta.Some? && k < |s.sockets|
    ensures var was := s.messages[m].value;
            var s' := Do(s, SetUsedSize(m, size));
            Do(s', Send(m, k)).sockets
            == s.sockets[k := s.sockets[k] + [[HeaderOf(was).(size := if size <= was.fSize then size else was.fSize)]]]
  {
    var s' := Do(s, SetUsedSize(m, size));
    ProperStep(s, SetUsedSize(m, size));
    AloneAtEnd(s', m, k);
  }
}
