/**
 The device configuration keeps every channel setting twice: in the channel map, and in a flat
 variable map under the key `chans.<name>.<index>.<member>`. A key index leads from the second
 back to the first. The module is about the keys being unambiguous and the two copies agreeing.
 */
module ChannelConfig {
  import opened Wrappers

  // ----- decimal numbers -----

  predicate Digits(s: string) {
    forall i | 0 <= i < |s| :: '0' <= s[i] <= '9'
  }

  function Decimal(n: nat): (s: string)
    ensures Digits(s)
  {
    if n < 10 then ['0' + n as char] else Decimal(n / 10) + ['0' + (n % 10) as char]
  }

  function Number(s: string): nat
    requires Digits(s)
  {
    if s == [] then 0 else Number(s[..|s| - 1]) * 10 + (s[|s| - 1] - '0') as nat
  }

  lemma {:induction false} DecimalRoundTrip(n: nat)
    ensures Number(Decimal(n)) == n
  {
    if n < 10 {
      assert Decimal(n)[..0] == [];
    } else {
      DecimalRoundTrip(n / 10);
      assert Decimal(n)[..|Decimal(n)| - 1] == Decimal(n / 10);
    }
  }

  // ----- taking strings apart from the right -----

  /** The last position of a character. */
  function RFind(s: string, c: char): (r: Option<nat>)
    ensures r.Some? ==> r.value < |s| && s[r.value] == c && c !in s[r.value + 1..]
    ensures r.None? ==> c !in s
  {
    if s == [] then None
    else if s[|s| - 1] == c then Some(|s| - 1)
    else
      var r := RFind(s[..|s| - 1], c);
      assert r.Some? ==> s[r.value + 1..] == s[..|s| - 1][r.value + 1..] + [s[|s| - 1]];
      assert s == s[..|s| - 1] + [s[|s| - 1]];
      r
  }

  lemma {:induction false} RFindAt(a: string, c: char, b: string)
    requires c !in b
    ensures RFind(a + [c] + b, c) == Some(|a|)
  {
    if b != [] {
      var s, front := a + [c] + b, b[..|b| - 1];
      RFindAt(a, c, front);
      assert s[..|s| - 1] == a + [c] + front;
      assert s[|s| - 1] == b[|b| - 1];
      assert b[|b| - 1] in b;
    }
  }

  /** There is one way to cut a string at its last `c`. */
  lemma CutUnique(a: string, b: string, a': string, b': string, c: char)
    requires c !in b && c !in b' && a + [c] + b == a' + [c] + b'
    ensures a == a' && b == b'
  {
    RFindAt(a, c, b);
    RFindAt(a', c, b');
    var s := a + [c] + b;
    assert a == s[..|a|] && a' == s[..|a'|];
    assert b == s[|a| + 1..] && b' == s[|a'| + 1..];
  }

  // ----- keys -----

  datatype Member =
    | Type | Method | Address | Transport | SndBufSize | RcvBufSize | SndKernelSize | RcvKernelSize | RateLogging

  function MemberName(m: Member): (s: string)
    ensures '.' !in s && s != "numSockets"
  {
    match m
    case Type => "type"
    case Method => "method"
    case Address => "address"
    case Transport => "transport"
    case SndBufSize => "sndBufSize"
    case RcvBufSize => "rcvBufSize"
    case SndKernelSize => "sndKernelSize"
    case RcvKernelSize => "rcvKernelSize"
    case RateLogging => "rateLogging"
  }

  lemma MemberNamesDiffer(m: Member, m': Member)
    requires MemberName(m) == MemberName(m')
    ensures m == m'
  {
    assert |MemberName(m)| == |MemberName(m')| && MemberName(m)[0] == MemberName(m')[0];
  }

  function Key(name: string, index: nat, m: Member): string {
    "chans." + name + "." + Decimal(index) + "." + MemberName(m)
  }

  function CountKey(name: string): string {
    "chans." + name + ".numSockets"
  }

  /** Keys are unambiguous for all channel names, dotted ones included. */
  lemma KeyInjective(name: string, index: nat, m: Member, name': string, index': nat, m': Member)
    requires Key(name, index, m) == Key(name', index', m')
    ensures name == name' && index == index' && m == m'
  {
    var a, a' := "chans." + name, "chans." + name';
    var ai, ai' := a + "." + Decimal(index), a' + "." + Decimal(index');
    assert Key(name, index, m) == ai + ['.'] + MemberName(m) && Key(name', index', m') == ai' + ['.'] + MemberName(m');
    CutUnique(ai, MemberName(m), ai', MemberName(m'), '.');
    MemberNamesDiffer(m, m');
    CutUnique(a, Decimal(index), a', Decimal(index'), '.');
    DecimalRoundTrip(index);
    DecimalRoundTrip(index');
    assert name == a[6..] && name' == a'[6..];
  }

  /** No socket count is stored under the key of a channel member. */
  lemma CountKeyApart(name: string, name': string, index: nat, m: Member)
    ensures CountKey(name) != Key(name', index, m)
  {
    var a, a' := "chans." + name, "chans." + name' + "." + Decimal(index);
    assert CountKey(name) == a + ['.'] + "numSockets" && Key(name', index, m) == a' + ['.'] + MemberName(m);
    RFindAt(a, '.', "numSockets");
    RFindAt(a', '.', MemberName(m));
    assert CountKey(name)[|a| + 1..] == "numSockets" && Key(name', index, m)[|a'| + 1..] == MemberName(m);
  }

  // ----- channel names -----

  /** The name a device gives its channel. */
  function ChannelName(name: string, index: nat): string {
    name + "[" + Decimal(index) + "]"
  }

  /** None where erasing from no position throws. */
  function ChannelPrefix(fName: string): Option<string> {
    match RFind(fName, '[')
    case None => None
    case Some(i) => Some(fName[..i])
  }

  function ChannelIndex(fName: string): Option<string> {
    match RFind(fName, ']')
    case None => None
    case Some(j) =>
      match RFind(fName[..j], '[')
      case None => Some(fName[..j])
      case Some(i) => Some(fName[i + 1..j])
  }

  /** The key a device rebuilds from the name of its channel. */
  function RebuiltKey(fName: string, m: Member): Option<string> {
    match (ChannelPrefix(fName), ChannelIndex(fName))
    case (Some(prefix), Some(index)) => Some("chans." + prefix + "." + index + "." + MemberName(m))
    case _ => None
  }

  lemma PrefixOfName(name: string, index: nat)
    ensures ChannelPrefix(ChannelName(name, index)) == Some(name)
  {
    var rest := Decimal(index) + "]";
    assert ChannelName(name, index) == name + ['['] + rest;
    RFindAt(name, '[', rest);
    assert (name + ['['] + rest)[..|name|] == name;
  }

  lemma IndexOfName(name: string, index: nat)
    ensures ChannelIndex(ChannelName(name, index)) == Some(Decimal(index))
  {
    var front := name + ['['] + Decimal(index);
    var fName := ChannelName(name, index);
    assert fName == front + [']'] + "";
    RFindAt(front, ']', "");
    assert fName[..|front|] == front;
    RFindAt(name, '[', Decimal(index));
    assert fName[|name| + 1..|front|] == Decimal(index);
  }

  /** Rebuilding returns the key the configuration uses, whatever brackets and dots the name has. */
  lemma RebuiltKeyIsKey(name: string, index: nat, m: Member)
    ensures RebuiltKey(ChannelName(name, index), m) == Some(Key(name, index, m))
  {
    PrefixOfName(name, index);
    IndexOfName(name, index);
  }

  // ----- the two copies -----

  datatype TransportType = DEFAULT | ZMQ | NN | SHM | OFI

  function TransportName(t: TransportType): (name: string)
    ensures TransportOf(name) == Some(t)
  {
    match t
    case DEFAULT => "default"
    case ZMQ => "zeromq"
    case NN => "nanomsg"
    case SHM => "shmem"
    case OFI => "ofi"
  }

  function TransportOf(name: string): Option<TransportType> {
    if name == "default" then Some(DEFAULT)
    else if name == "zeromq" then Some(ZMQ)
    else if name == "nanomsg" then Some(NN)
    else if name == "shmem" then Some(SHM)
    else if name == "ofi" then Some(OFI)
    else None
  }

  /** A value of another type is known by its printed form. */
  datatype Value = Str(s: string) | Int(n: int) | Other(text: string)

  function Text(val: Value): string {
    match val
    case Str(s) => s
    case Int(n) => if n < 0 then "-" + Decimal(-n) else Decimal(n)
    case Other(text) => text
  }

  datatype Channel = Channel(kind: string, method_: string, address: string, transport: TransportType,
                             sndBufSize: int, rcvBufSize: int, sndKernelSize: int, rcvKernelSize: int,
                             rateLogging: int, isValid: bool, modified: bool)

  datatype ChannelKey = ChannelKey(channel: string, index: nat, member: Member)

  type Channels = map<string, seq<Channel>>

  /** `emitted` is what the subscribers have been told, `texts` what those have who want it as text. */
  datatype Options = Options(varMap: map<string, Value>, channels: Channels, keyMap: map<string, ChannelKey>,
                             emitted: seq<(string, Value)>, texts: seq<(string, string)>)

  const NEW: Options := Options(map[], map[], map[], [], [])

  /** A channel's setting as the variable map should hold it. */
  function Setting(c: Channel, m: Member): Value {
    match m
    case Type => Str(c.kind)
    case Method => Str(c.method_)
    case Address => Str(c.address)
    case Transport => Str(TransportName(c.transport))
    case SndBufSize => Int(c.sndBufSize)
    case RcvBufSize => Int(c.rcvBufSize)
    case SndKernelSize => Int(c.sndKernelSize)
    case RcvKernelSize => Int(c.rcvKernelSize)
    case RateLogging => Int(c.rateLogging)
  }

  /** The members a set value is carried over to; the kernel sizes are not among them. */
  predicate Mirrored(m: Member) {
    !m.SndKernelSize? && !m.RcvKernelSize?
  }

  predicate Exists(channels: Channels, name: string, index: nat) {
    name in channels && index < |channels[name]|
  }

  predicate Indexed(o: Options, name: string, index: nat, m: Member) {
    && Key(name, index, m) in o.keyMap
    && o.keyMap[Key(name, index, m)] == ChannelKey(name, index, m)
  }

  predicate AgreesOn(o: Options, name: string, index: nat, m: Member)
    requires Exists(o.channels, name, index)
  {
    && Key(name, index, m) in o.varMap
    && o.varMap[Key(name, index, m)] == Setting(o.channels[name][index], m)
  }

  /** The key index knows every present member, and leads from every key to the member it names. */
  ghost predicate IndexRight(o: Options) {
    && (forall name, index, m | Exists(o.channels, name, index) :: Indexed(o, name, index, m))
    && IndexSound(o.keyMap)
  }

  predicate IndexSound(keyMap: map<string, ChannelKey>) {
    forall key | key in keyMap :: key == KeyOf(keyMap[key])
  }

  function KeyOf(k: ChannelKey): string {
    Key(k.channel, k.index, k.member)
  }

  ghost predicate Agree(o: Options) {
    forall name, index, m | Exists(o.channels, name, index) && Mirrored(m) :: AgreesOn(o, name, index, m)
  }

  // ----- setting a value -----

  datatype Outcome = Done | OutOfRange | Exits

  /** Which overload handles the value, and whether it knows the member. */
  predicate Takes(m: Member, val: Value) {
    match val
    case Str(_) => m.Type? || m.Method? || m.Address? || m.Transport?
    case Int(_) => m.SndBufSize? || m.RcvBufSize? || m.RateLogging?
    case Other(_) => false
  }

  predicate KnownTransport(m: Member, val: Value) {
    m.Transport? && val.Str? ==> TransportOf(val.s).Some?
  }

  function UpdatedChannel(c: Channel, m: Member, val: Value): Channel
    requires Takes(m, val) && KnownTransport(m, val)
  {
    var d := c.(isValid := false, modified := true);
    match m
    case Type => d.(kind := val.s)
    case Method => d.(method_ := val.s)
    case Address => d.(address := val.s)
    case Transport => d.(transport := TransportOf(val.s).value)
    case SndBufSize => d.(sndBufSize := val.n)
    case RcvBufSize => d.(rcvBufSize := val.n)
    case RateLogging => d.(rateLogging := val.n)
  }

  /** An exception leaves before the subscribers are told. */
  function ValueSet(o: Options, key: string, val: Value): (Options, Outcome) {
    var p := o.(varMap := o.varMap[key := val]);
    var told := p.(emitted := o.emitted + [(key, val)], texts := o.texts + [(key, Text(val))]);
    if key !in o.keyMap || !Takes(o.keyMap[key].member, val) then (told, Done)
    else
      var k := o.keyMap[key];
      if !Exists(o.channels, k.channel, k.index) then (p, OutOfRange)
      else if !KnownTransport(k.member, val) then (p, Exits)
      else
        var cs := o.channels[k.channel];
        (told.(channels := o.channels[k.channel := cs[k.index := UpdatedChannel(cs[k.index], k.member, val)]]), Done)
  }

  function AllSet(o: Options, sets: seq<(string, Value)>): Options
    decreases |sets|
  {
    if sets == [] then o
    else
      var last := sets[|sets| - 1];
      ValueSet(AllSet(o, sets[..|sets| - 1]), last.0, last.1).0
  }

  /** If the key is that of a mirrored member of a present channel, the value has its type and a transport its name. */
  predicate Fits(o: Options, key: string, val: Value) {
    key in o.keyMap && Mirrored(o.keyMap[key].member) && Exists(o.channels, o.keyMap[key].channel, o.keyMap[key].index)
    ==> Takes(o.keyMap[key].member, val) && KnownTransport(o.keyMap[key].member, val)
  }

  predicate SameType(a: Value, b: Value) {
    (a.Str? <==> b.Str?) && (a.Int? <==> b.Int?)
  }

  /** The members that are carried over are taken in their own type and in no other; the kernel sizes in none. */
  lemma TakesOwnType(c: Channel, m: Member, val: Value)
    ensures Takes(m, val) <==> Mirrored(m) && SameType(val, Setting(c, m))
  {
  }

  lemma UpdateSets(c: Channel, m: Member, val: Value, other: Member)
    requires Takes(m, val) && KnownTransport(m, val)
    ensures Setting(UpdatedChannel(c, m, val), other) == if other == m then val else Setting(c, other)
  {
    if m.Transport? {
      TransportNamesBack(val.s);
    }
  }

  lemma TransportNamesBack(name: string)
    ensures TransportOf(name).Some? ==> TransportName(TransportOf(name).value) == name
  {
  }

  lemma SameShape(o: Options, key: string, val: Value)
    ensures ValueSet(o, key, val).0.keyMap == o.keyMap
    ensures forall name, index :: Exists(ValueSet(o, key, val).0.channels, name, index) <==> Exists(o.channels, name, index)
  {
  }

  /** What one call leaves in every member of every present channel. */
  lemma SettingAfter(o: Options, key: string, val: Value, name: string, index: nat, m: Member)
    requires IndexRight(o) && Exists(o.channels, name, index) && Fits(o, key, val) && Mirrored(m)
    ensures Exists(ValueSet(o, key, val).0.channels, name, index)
    ensures Setting(ValueSet(o, key, val).0.channels[name][index], m)
         == if key == Key(name, index, m) then val else Setting(o.channels[name][index], m)
  {
    SameShape(o, key, val);
    assert Indexed(o, name, index, m);
    if key in o.keyMap && Takes(o.keyMap[key].member, val) && Exists(o.channels, o.keyMap[key].channel, o.keyMap[key].index) {
      var k := o.keyMap[key];
      assert key == KeyOf(k);
      UpdateSets(o.channels[k.channel][k.index], k.member, val, m);
    }
  }

  /** A call keeps the two copies in agreement exactly when its value fits its key. */
  lemma AgreementKeptExactly(o: Options, key: string, val: Value)
    requires IndexRight(o) && Agree(o)
    ensures IndexRight(ValueSet(o, key, val).0)
    ensures Agree(ValueSet(o, key, val).0) <==> Fits(o, key, val)
  {
    var p := ValueSet(o, key, val).0;
    SameShape(o, key, val);
    assert IndexRight(p) by {
      forall name, index, m | Exists(p.channels, name, index)
        ensures Indexed(p, name, index, m)
      {
        assert Indexed(o, name, index, m);
      }
    }
    if Fits(o, key, val) {
      forall name, index, m | Exists(p.channels, name, index) && Mirrored(m)
        ensures AgreesOn(p, name, index, m)
      {
        assert AgreesOn(o, name, index, m);
        SettingAfter(o, key, val, name, index, m);
      }
    } else {
      var k := o.keyMap[key];
      assert key == KeyOf(k);
      assert p.channels == o.channels && p.varMap[key] == val;
      MisfitDiffers(o.channels[k.channel][k.index], k.member, val);
      assert !AgreesOn(p, k.channel, k.index, k.member);
    }
  }

  /** A value that does not fit a mirrored member is never the value of that member. */
  lemma MisfitDiffers(c: Channel, m: Member, val: Value)
    requires Mirrored(m) && !(Takes(m, val) && KnownTransport(m, val))
    ensures Setting(c, m) != val
  {
  }

  // ----- whole runs of calls -----

  predicate AllFit(o: Options, sets: seq<(string, Value)>) {
    forall i | 0 <= i < |sets| :: Fits(o, sets[i].0, sets[i].1)
  }

  function LastSet(sets: seq<(string, Value)>, key: string): Option<Value>
    decreases |sets|
  {
    if sets == [] then None
    else
      var last := sets[|sets| - 1];
      if last.0 == key then Some(last.1) else LastSet(sets[..|sets| - 1], key)
  }

  lemma {:induction false} ShapeKept(o: Options, sets: seq<(string, Value)>)
    ensures AllSet(o, sets).keyMap == o.keyMap
    ensures forall name, index :: Exists(AllSet(o, sets).channels, name, index) <==> Exists(o.channels, name, index)
    decreases |sets|
  {
    if sets != [] {
      var front, last := sets[..|sets| - 1], sets[|sets| - 1];
      ShapeKept(o, front);
      SameShape(AllSet(o, front), last.0, last.1);
    }
  }

  /** Values that fit when the calls begin keep the copies in agreement over the whole run. */
  lemma {:induction false} RunAgrees(o: Options, sets: seq<(string, Value)>)
    requires IndexRight(o) && Agree(o) && AllFit(o, sets)
    ensures IndexRight(AllSet(o, sets)) && Agree(AllSet(o, sets))
    decreases |sets|
  {
    if sets != [] {
      var front, last := sets[..|sets| - 1], sets[|sets| - 1];
      RunAgrees(o, front);
      ShapeKept(o, front);
      AgreementKeptExactly(AllSet(o, front), last.0, last.1);
    }
  }

  function OrElse(v: Option<Value>, default: Value): Value {
    if v.Some? then v.value else default
  }

  /** After any such run each channel member holds the value last set under its own key, and no other. */
  lemma {:induction false} LastValueWins(o: Options, sets: seq<(string, Value)>, name: string, index: nat, m: Member)
    requires IndexRight(o) && Agree(o) && AllFit(o, sets)
    requires Exists(o.channels, name, index) && Mirrored(m)
    ensures Exists(AllSet(o, sets).channels, name, index)
    ensures Setting(AllSet(o, sets).channels[name][index], m)
         == OrElse(LastSet(sets, Key(name, index, m)), Setting(o.channels[name][index], m))
    decreases |sets|
  {
    if sets != [] {
      var front, last := sets[..|sets| - 1], sets[|sets| - 1];
      LastValueWins(o, front, name, index, m);
      RunAgrees(o, front);
      ShapeKept(o, front);
      SettingAfter(AllSet(o, front), last.0, last.1, name, index, m);
    }
  }

  /** A kernel size is stored in the variable map and never reaches the channel. */
  lemma KernelSizeDrifts(o: Options, name: string, index: nat, m: Member, val: Value)
    requires IndexRight(o) && Exists(o.channels, name, index) && !Mirrored(m)
    ensures ValueSet(o, Key(name, index, m), val).0.channels == o.channels
    ensures AgreesOn(ValueSet(o, Key(name, index, m), val).0, name, index, m) <==> val == Setting(o.channels[name][index], m)
  {
    assert Indexed(o, name, index, m);
  }

  // ----- what subscribers see -----

  /** A subscriber's copy of the variable map, brought up to date by what it is told. */
  function Replayed(copy: map<string, Value>, told: seq<(string, Value)>): map<string, Value>
    decreases |told|
  {
    if told == [] then copy
    else
      var last := told[|told| - 1];
      Replayed(copy, told[..|told| - 1])[last.0 := last.1]
  }

  /** The call ends well: its key does not lead to a channel that is gone, nor set an unknown transport. */
  predicate EndsWell(o: Options, key: string, val: Value) {
    key in o.keyMap && Takes(o.keyMap[key].member, val)
    ==> Exists(o.channels, o.keyMap[key].channel, o.keyMap[key].index) && KnownTransport(o.keyMap[key].member, val)
  }

  // ----- rebuilding both maps from the channels -----

  predicate Stored(varMap: map<string, Value>, keyMap: map<string, ChannelKey>, name: string, index: nat, m: Member, c: Channel) {
    var key := Key(name, index, m);
    key in varMap && varMap[key] == Setting(c, m) && key in keyMap && keyMap[key] == ChannelKey(name, index, m)
  }

  predicate CountStored(varMap: map<string, Value>, name: string, count: nat) {
    CountKey(name) in varMap && varMap[CountKey(name)] == Int(count)
  }

  ghost predicate IsMemberKey(key: string, name: string, index: nat) {
    exists m :: key == Key(name, index, m)
  }

  ghost predicate Written(channels: Channels, key: string) {
    || (exists name, index :: Exists(channels, name, index) && IsMemberKey(key, name, index))
    || (exists name :: name in channels && key == CountKey(name))
  }

  ghost predicate SameAt<V>(a: map<string, V>, b: map<string, V>, key: string) {
    (key in a <==> key in b) && (key in a ==> a[key] == b[key])
  }

  ghost predicate SameOutside<V>(a: map<string, V>, b: map<string, V>, name: string, index: nat) {
    forall key | !IsMemberKey(key, name, index) :: SameAt(a, b, key)
  }

  /** Not a key of the first channels of a name. */
  ghost predicate Foreign(key: string, name: string, count: nat) {
    forall index: nat | index < count :: !IsMemberKey(key, name, index)
  }

  /** The members of one channel have keys of their own. */
  lemma MemberKeysApart(name: string, index: nat)
    ensures forall m, m' :: Key(name, index, m) == Key(name, index, m') ==> m == m'
  {
    forall m, m' | Key(name, index, m) == Key(name, index, m')
      ensures m == m'
    {
      KeyInjective(name, index, m, name, index, m');
    }
  }

  /** The entries of one channel in the key index. */
  function KeyEntries(name: string, index: nat): (e: map<string, ChannelKey>)
    ensures forall m :: Key(name, index, m) in e && e[Key(name, index, m)] == ChannelKey(name, index, m)
    ensures forall key | key in e :: IsMemberKey(key, name, index)
  {
    MemberKeysApart(name, index);
    var e := map m: Member :: Key(name, index, m) := ChannelKey(name, index, m);
    assert forall m: Member :: Key(name, index, m) in e.Keys;
    e
  }

  /** The entries of one channel in the variable map. */
  function ValueEntries(name: string, index: nat, c: Channel): (e: map<string, Value>)
    ensures forall m :: Key(name, index, m) in e && e[Key(name, index, m)] == Setting(c, m)
    ensures forall key | key in e :: IsMemberKey(key, name, index)
  {
    var keys := KeyEntries(name, index);
    map key | key in keys :: Setting(c, keys[key].member)
  }

  /** Storing one channel touches no key of another channel. */
  lemma StoredElsewhere(name: string, index: nat, name': string, index': nat, m: Member)
    requires (name, index) != (name', index')
    ensures !IsMemberKey(Key(name', index', m), name, index)
  {
    forall m' | Key(name, index, m') == Key(name', index', m)
      ensures false
    {
      KeyInjective(name, index, m', name', index', m);
    }
  }

  lemma CountKeysApart(name: string, name': string)
    requires CountKey(name) == CountKey(name')
    ensures name == name'
  {
    var a, a' := "chans." + name, "chans." + name';
    assert CountKey(name) == a + ['.'] + "numSockets" && CountKey(name') == a' + ['.'] + "numSockets";
    CutUnique(a, "numSockets", a', "numSockets", '.');
    assert name == a[6..] && name' == a'[6..];
  }

  lemma RebuiltAgrees(o: Options)
    requires IndexSound(o.keyMap)
    requires forall name, index: nat, m | Exists(o.channels, name, index) ::
               Stored(o.varMap, o.keyMap, name, index, m, o.channels[name][index])
    ensures IndexRight(o) && Agree(o)
  {
    forall name, index: nat, m | Exists(o.channels, name, index)
      ensures Indexed(o, name, index, m) && AgreesOn(o, name, index, m)
    {
      assert Stored(o.varMap, o.keyMap, name, index, m, o.channels[name][index]);
    }
  }

  lemma OtherNameKept(name: string, other: string, index: nat, m: Member)
    requires name != other
    ensures Key(other, index, m) != CountKey(name)
    ensures forall i: nat :: !IsMemberKey(Key(other, index, m), name, i)
  {
    CountKeyApart(name, other, index, m);
    forall i: nat
      ensures !IsMemberKey(Key(other, index, m), name, i)
    {
      StoredElsewhere(name, i, other, index, m);
    }
  }

  lemma OtherCountKept(name: string, other: string)
    requires name != other
    ensures CountKey(other) != CountKey(name)
    ensures forall i: nat :: !IsMemberKey(CountKey(other), name, i)
  {
    assert CountKey(other) == CountKey(name) ==> other == name by {
      if CountKey(other) == CountKey(name) {
        CountKeysApart(other, name);
      }
    }
    forall i: nat, m
      ensures CountKey(other) != Key(name, i, m)
    {
      CountKeyApart(other, name, i, m);
    }
  }

  // ----- whole runs with rebuilds: what a subscriber's copy is worth -----

  ghost predicate MembersStored(varMap: map<string, Value>, keyMap: map<string, ChannelKey>, channels: Channels) {
    forall name, index: nat, m | Exists(channels, name, index) :: Stored(varMap, keyMap, name, index, m, channels[name][index])
  }

  ghost predicate CountsStored(varMap: map<string, Value>, channels: Channels) {
    forall name | name in channels :: CountStored(varMap, name, |channels[name]|)
  }

  ghost predicate Untouched(o: Options, o': Options) {
    forall key | !Written(o'.channels, key) :: SameAt(o'.varMap, o.varMap, key) && SameAt(o'.keyMap, o.keyMap, key)
  }

  /** A rebuild: every member stored and indexed, every count stored, nothing else touched, nobody told. */
  ghost predicate IsRebuild(o: Options, o': Options, channels: Channels) {
    && o'.channels == channels && o'.emitted == o.emitted && o'.texts == o.texts
    && MembersStored(o'.varMap, o'.keyMap, channels) && CountsStored(o'.varMap, channels)
    && Untouched(o, o')
  }

  /** The copy, brought up to date by what was told, is the variable map. */
  predicate InStep(copy: map<string, Value>, o: Options) {
    Replayed(copy, o.emitted) == o.varMap
  }

  predicate Holds(varMap: map<string, Value>, key: string, val: Value) {
    key in varMap && varMap[key] == val
  }

  /** The variable map has all that a rebuild from these channels would write. */
  ghost predicate AlreadyStored(varMap: map<string, Value>, channels: Channels) {
    && (forall name, index: nat, m | Exists(channels, name, index) :: Holds(varMap, Key(name, index, m), Setting(channels[name][index], m)))
    && CountsStored(varMap, channels)
  }

  datatype Call = Set(key: string, val: Value) | Rebuild(channels: Channels)

  ghost predicate Follows(o: Options, call: Call, o': Options) {
    match call
    case Set(key, val) => o' == ValueSet(o, key, val).0
    case Rebuild(channels) => IsRebuild(o, o', channels)
  }

  /** The call changes nothing that it does not tell: a set ends well or sets what is there, a rebuild writes what is there. */
  ghost predicate TellsAll(o: Options, call: Call) {
    match call
    case Set(key, val) => EndsWell(o, key, val) || Holds(o.varMap, key, val)
    case Rebuild(channels) => AlreadyStored(o.varMap, channels)
  }

  /** The outcome of a call: out of range for a key whose channel is gone, an exit for a transport there is none of, else done. */
  lemma OutcomeExactly(o: Options, key: string, val: Value)
    ensures var p, taken := ValueSet(o, key, val), key in o.keyMap && Takes(o.keyMap[key].member, val);
            && (p.1 == Done <==> EndsWell(o, key, val))
            && (p.1 == OutOfRange <==> taken && !Exists(o.channels, o.keyMap[key].channel, o.keyMap[key].index))
            && (p.1 != Done ==> p.0 == o.(varMap := o.varMap[key := val]))
            && Holds(p.0.varMap, key, val)
  {
  }

  lemma SetKeepsCopyExactly(o: Options, key: string, val: Value, copy: map<string, Value>)
    requires InStep(copy, o)
    ensures InStep(copy, ValueSet(o, key, val).0) <==> TellsAll(o, Set(key, val))
  {
    var p := ValueSet(o, key, val).0;
    if EndsWell(o, key, val) {
      assert p.emitted[..|o.emitted|] == o.emitted;
    } else {
      assert p.varMap[key] == val;
    }
  }

  lemma SameEverywhere(a: map<string, Value>, b: map<string, Value>)
    requires forall key :: SameAt(a, b, key)
    ensures a == b
  {
    forall key
      ensures key in a.Keys <==> key in b.Keys
    {
      assert SameAt(a, b, key);
    }
    assert a.Keys == b.Keys;
    forall key | key in a
      ensures a[key] == b[key]
    {
      assert SameAt(a, b, key);
    }
  }

  lemma SameMap(o: Options, o': Options, channels: Channels, key: string)
    requires IsRebuild(o, o', channels) && AlreadyStored(o.varMap, channels)
    ensures SameAt(o'.varMap, o.varMap, key)
  {
    if exists name, index: nat :: Exists(channels, name, index) && IsMemberKey(key, name, index) {
      var name, index: nat :| Exists(channels, name, index) && IsMemberKey(key, name, index);
      var m :| key == Key(name, index, m);
      assert Stored(o'.varMap, o'.keyMap, name, index, m, channels[name][index]);
      assert Holds(o.varMap, Key(name, index, m), Setting(channels[name][index], m));
    } else if exists name :: name in channels && key == CountKey(name) {
      var name :| name in channels && key == CountKey(name);
      assert CountStored(o.varMap, name, |channels[name]|) && CountStored(o'.varMap, name, |channels[name]|);
    } else {
      assert !Written(channels, key);
    }
  }

  lemma RebuildKeepsCopyExactly(o: Options, o': Options, channels: Channels, copy: map<string, Value>)
    requires InStep(copy, o) && IsRebuild(o, o', channels)
    ensures InStep(copy, o') <==> TellsAll(o, Rebuild(channels))
  {
    if AlreadyStored(o.varMap, channels) {
      forall key
        ensures SameAt(o'.varMap, o.varMap, key)
      {
        SameMap(o, o', channels, key);
      }
      SameEverywhere(o'.varMap, o.varMap);
    } else if o'.varMap == o.varMap {
      forall name, index: nat, m | Exists(channels, name, index)
        ensures Holds(o.varMap, Key(name, index, m), Setting(channels[name][index], m))
      {
        assert Stored(o'.varMap, o'.keyMap, name, index, m, channels[name][index]);
      }
    }
  }

  ghost predicate IsRun(os: seq<Options>, calls: seq<Call>) {
    |os| == |calls| + 1 && forall i: nat | i < |calls| :: Follows(os[i], calls[i], os[i + 1])
  }

  lemma CallKeepsCopyExactly(o: Options, call: Call, o': Options, copy: map<string, Value>)
    requires InStep(copy, o) && Follows(o, call, o')
    ensures InStep(copy, o') <==> TellsAll(o, call)
  {
    match call
    case Set(key, val) => SetKeepsCopyExactly(o, key, val, copy);
    case Rebuild(channels) => RebuildKeepsCopyExactly(o, o', channels, copy);
  }

  lemma {:induction false} ToldAllInStep(os: seq<Options>, calls: seq<Call>, copy: map<string, Value>, n: nat)
    requires IsRun(os, calls) && InStep(copy, os[0]) && n < |os|
    requires forall i: nat | i < |calls| :: TellsAll(os[i], calls[i])
    ensures InStep(copy, os[n])
  {
    if n > 0 {
      ToldAllInStep(os, calls, copy, n - 1);
      assert Follows(os[n - 1], calls[n - 1], os[n - 1 + 1]);
      CallKeepsCopyExactly(os[n - 1], calls[n - 1], os[n], copy);
    }
  }

  /** Over any run of sets and rebuilds a copy is in step all the way exactly when every call tells all it changes. */
  lemma SubscribersKeepUp(os: seq<Options>, calls: seq<Call>, copy: map<string, Value>)
    requires IsRun(os, calls) && InStep(copy, os[0])
    ensures (forall i: nat | i < |os| :: InStep(copy, os[i])) <==> (forall i: nat | i < |calls| :: TellsAll(os[i], calls[i]))
  {
    if forall i: nat | i < |calls| :: TellsAll(os[i], calls[i]) {
      forall n: nat | n < |os|
        ensures InStep(copy, os[n])
      {
        ToldAllInStep(os, calls, copy, n);
      }
    } else if forall i: nat | i < |os| :: InStep(copy, os[i]) {
      forall i: nat | i < |calls|
        ensures TellsAll(os[i], calls[i])
      {
        assert Follows(os[i], calls[i], os[i + 1]) && InStep(copy, os[i + 1]);
        CallKeepsCopyExactly(os[i], calls[i], os[i + 1], copy);
      }
    }
  }

  /** Sets alone, whatever their values: it is enough that they end well as things are when the run begins. */
  lemma {:induction false} SetsKeepUp(o: Options, sets: seq<(string, Value)>, copy: map<string, Value>)
    requires InStep(copy, o)
    requires forall i | 0 <= i < |sets| :: EndsWell(o, sets[i].0, sets[i].1)
    ensures InStep(copy, AllSet(o, sets))
    decreases |sets|
  {
    if sets != [] {
      var front, last := sets[..|sets| - 1], sets[|sets| - 1];
      SetsKeepUp(o, front, copy);
      ShapeKept(o, front);
      SetKeepsCopyExactly(AllSet(o, front), last.0, last.1, copy);
    }
  }

  lemma {:induction false} ReplayedAt(copy: map<string, Value>, told: seq<(string, Value)>, key: string)
    ensures match LastSet(told, key)
            case Some(val) => Holds(Replayed(copy, told), key, val)
            case None => SameAt(Replayed(copy, told), copy, key)
    decreases |told|
  {
    if told != [] {
      ReplayedAt(copy, told[..|told| - 1], key);
    }
  }

  /** The last that was told of a key is what the map has there. */
  predicate LastTold(o: Options, key: string) {
    LastSet(o.emitted, key).Some? ==> Holds(o.varMap, key, LastSet(o.emitted, key).value)
  }

  /** Some copy is in step exactly when the last told value of every key is its current one. */
  lemma SomeCopyInStepExactly(o: Options)
    ensures (exists copy :: InStep(copy, o)) <==> (forall key :: LastTold(o, key))
  {
    if copy :| InStep(copy, o) {
      forall key
        ensures LastTold(o, key)
      {
        ReplayedAt(copy, o.emitted, key);
      }
    } else if forall key :: LastTold(o, key) {
      forall key
        ensures SameAt(Replayed(o.varMap, o.emitted), o.varMap, key)
      {
        ReplayedAt(o.varMap, o.emitted, key);
        assert LastTold(o, key);
      }
      SameEverywhere(Replayed(o.varMap, o.emitted), o.varMap);
      assert InStep(o.varMap, o);
    }
  }

  /** Every change is told twice, as value and as text, in the same order. */
  predicate Worded(o: Options) {
    && |o.texts| == |o.emitted|
    && forall i | 0 <= i < |o.texts| :: o.texts[i] == (o.emitted[i].0, Text(o.emitted[i].1))
  }

  lemma {:induction false} TextsFollow(os: seq<Options>, calls: seq<Call>, n: nat)
    requires IsRun(os, calls) && Worded(os[0]) && n < |os|
    ensures Worded(os[n])
  {
    if n > 0 {
      TextsFollow(os, calls, n - 1);
      assert Follows(os[n - 1], calls[n - 1], os[n - 1 + 1]);
    }
  }

  // ----- the keys and values spelled out -----

  function KeyStem(name: string, index: nat): string {
    "chans." + name + "." + Decimal(index) + "."
  }

  lemma MemberHeld(o: Options, channels: Channels, o': Options, name: string, index: nat, m: Member)
    requires IsRebuild(o, o', channels) && Exists(channels, name, index)
    ensures Holds(o'.varMap, KeyStem(name, index) + MemberName(m), Setting(channels[name][index], m))
  {
    assert Stored(o'.varMap, o'.keyMap, name, index, m, channels[name][index]);
  }

  /** What a device or a user finds under the nine keys of a channel and the key of its count. */
  lemma KeysSpelledOut(o: Options, channels: Channels, o': Options, name: string, index: nat)
    requires IsRebuild(o, o', channels) && Exists(channels, name, index)
    ensures var c, stem, v := channels[name][index], KeyStem(name, index), o'.varMap;
            && Holds(v, stem + "type", Str(c.kind))
            && Holds(v, stem + "method", Str(c.method_))
            && Holds(v, stem + "address", Str(c.address))
            && Holds(v, stem + "transport", Str(TransportName(c.transport)))
            && Holds(v, stem + "sndBufSize", Int(c.sndBufSize))
            && Holds(v, stem + "rcvBufSize", Int(c.rcvBufSize))
            && Holds(v, stem + "sndKernelSize", Int(c.sndKernelSize))
            && Holds(v, stem + "rcvKernelSize", Int(c.rcvKernelSize))
            && Holds(v, stem + "rateLogging", Int(c.rateLogging))
            && Holds(v, "chans." + name + ".numSockets", Int(|channels[name]|))
  {
    MemberHeld(o, channels, o', name, index, Type);
    MemberHeld(o, channels, o', name, index, Method);
    MemberHeld(o, channels, o', name, index, Address);
    MemberHeld(o, channels, o', name, index, Transport);
    MemberHeld(o, channels, o', name, index, SndBufSize);
    MemberHeld(o, channels, o', name, index, RcvBufSize);
    MemberHeld(o, channels, o', name, index, SndKernelSize);
    MemberHeld(o, channels, o', name, index, RcvKernelSize);
    MemberHeld(o, channels, o', name, index, RateLogging);
    assert CountStored(o'.varMap, name, |channels[name]|);
  }

  lemma TransportsSpelledOut()
    ensures TransportName(DEFAULT) == "default" && TransportName(ZMQ) == "zeromq" && TransportName(NN) == "nanomsg"
    ensures TransportName(SHM) == "shmem" && TransportName(OFI) == "ofi"
  {
  }

  ghost predicate OtherChannelsSame(a: Channels, b: Channels, name: string, index: nat) {
    forall name', index': nat | Exists(a, name', index') && (name' != name || index' != index) ::
      Exists(b, name', index') && b[name'][index'] == a[name'][index']
  }

  /** A value that is set under a spelled out key reaches that member of the channel, which is then to be validated again. */
  lemma SetMarksChannel(o: Options, name: string, index: nat, m: Member, val: Value)
    requires IndexRight(o) && Exists(o.channels, name, index) && Takes(m, val) && KnownTransport(m, val)
    ensures var p := ValueSet(o, KeyStem(name, index) + MemberName(m), val).0;
            && Exists(p.channels, name, index)
            && !p.channels[name][index].isValid && p.channels[name][index].modified
            && Setting(p.channels[name][index], m) == val
            && (forall other | other != m :: Setting(p.channels[name][index], other) == Setting(o.channels[name][index], other))
            && OtherChannelsSame(o.channels, p.channels, name, index)
  {
    assert KeyStem(name, index) + MemberName(m) == Key(name, index, m);
    assert Indexed(o, name, index, m);
    var c := o.channels[name][index];
    UpdateSets(c, m, val, m);
    forall other | other != m
      ensures Setting(UpdatedChannel(c, m, val), other) == Setting(c, other)
    {
      UpdateSets(c, m, val, other);
    }
  }

  /** A number is read back from its text, sign included. */
  lemma TextReadsBack(n: int)
    ensures var t := Text(Int(n));
            && t != [] && (t[0] == '-' <==> n < 0)
            && (n >= 0 ==> Digits(t) && Number(t) == n)
            && (n < 0 ==> Digits(t[1..]) && Number(t[1..]) == -n)
  {
    var k := if n < 0 then -n else n;
    DecimalRoundTrip(k);
    DecimalNotEmpty(k);
    assert n < 0 ==> Text(Int(n))[1..] == Decimal(k);
  }

  lemma DecimalNotEmpty(n: nat)
    ensures Decimal(n) != []
  {
  }

  // ----- storing the channels of one name -----

  lemma MergedStored(varMap: map<string, Value>, keyMap: map<string, ChannelKey>, name: string, index: nat, c: Channel, m: Member)
    ensures Stored(varMap + ValueEntries(name, index, c), keyMap + KeyEntries(name, index), name, index, m, c)
  {
  }

  lemma MergedOutside<V>(a: map<string, V>, entries: map<string, V>, name: string, index: nat)
    requires forall key | key in entries :: IsMemberKey(key, name, index)
    ensures SameOutside(a + entries, a, name, index)
  {
  }

  ghost predicate AllStored(varMap: map<string, Value>, keyMap: map<string, ChannelKey>, name: string, cs: seq<Channel>, n: nat)
    requires n <= |cs|
  {
    forall i: nat, m | i < n :: Stored(varMap, keyMap, name, i, m, cs[i])
  }

  ghost predicate SameForeign<V>(a: map<string, V>, b: map<string, V>, name: string, n: nat) {
    forall key | Foreign(key, name, n) :: SameAt(a, b, key)
  }

  lemma OneMoreStored(varMap: map<string, Value>, keyMap: map<string, ChannelKey>, varMap': map<string, Value>,
                      keyMap': map<string, ChannelKey>, name: string, cs: seq<Channel>, n: nat)
    requires n < |cs| && AllStored(varMap, keyMap, name, cs, n)
    requires SameOutside(varMap', varMap, name, n) && SameOutside(keyMap', keyMap, name, n)
    requires forall m :: Stored(varMap', keyMap', name, n, m, cs[n])
    ensures AllStored(varMap', keyMap', name, cs, n + 1)
  {
    forall i: nat, m | i < n
      ensures Stored(varMap', keyMap', name, i, m, cs[i])
    {
      StoredElsewhere(name, n, name, i, m);
      assert Stored(varMap, keyMap, name, i, m, cs[i]);
      assert SameAt(varMap', varMap, Key(name, i, m)) && SameAt(keyMap', keyMap, Key(name, i, m));
    }
  }

  lemma OneMoreForeign<V>(a: map<string, V>, b: map<string, V>, c: map<string, V>, name: string, n: nat)
    requires SameOutside(c, b, name, n) && SameForeign(b, a, name, n)
    ensures SameForeign(c, a, name, n + 1)
  {
    forall key | Foreign(key, name, n + 1)
      ensures SameAt(c, a, key)
    {
      assert !IsMemberKey(key, name, n) && Foreign(key, name, n);
      assert SameAt(c, b, key) && SameAt(b, a, key);
    }
  }

  lemma CountLeavesStored(varMap: map<string, Value>, keyMap: map<string, ChannelKey>, name: string, cs: seq<Channel>)
    requires AllStored(varMap, keyMap, name, cs, |cs|)
    ensures AllStored(varMap[CountKey(name) := Int(|cs|)], keyMap, name, cs, |cs|)
  {
    var counted := varMap[CountKey(name) := Int(|cs|)];
    forall i: nat, m | i < |cs|
      ensures Stored(counted, keyMap, name, i, m, cs[i])
    {
      CountKeyApart(name, name, i, m);
      assert Stored(varMap, keyMap, name, i, m, cs[i]);
    }
  }

  // ----- the configuration object -----

  class ProgOptions {
    var varMap: map<string, Value>
    var channels: Channels
    var keyMap: map<string, ChannelKey>
    var emitted: seq<(string, Value)>
    var texts: seq<(string, string)>
    var channelInfo: map<string, nat>

    ghost function View(): Options
      reads this
    {
      Options(varMap, channels, keyMap, emitted, texts)
    }

    ghost predicate Valid()
      reads this
    {
      IndexSound(keyMap)
    }

    constructor ()
      ensures Valid() && View() == NEW && channelInfo == map[]
    {
      varMap, channels, keyMap, emitted, texts, channelInfo := map[], map[], map[], [], [], map[];
    }

    method SetValue(key: string, val: Value) returns (outcome: Outcome)
      requires Valid()
      modifies `varMap, `channels, `emitted, `texts
      ensures Valid() && (View(), outcome) == ValueSet(old(View()), key, val)
    {
      varMap := varMap[key := val];
      outcome := Done;
      if key in keyMap {
        var k := keyMap[key];
        outcome := UpdateChannelValue(k.channel, k.index, k.member, val);
      }
      if outcome == Done {
        emitted := emitted + [(key, val)];
        texts := texts + [(key, Text(varMap[key]))];
      }
    }

    method UpdateChannelValue(name: string, index: nat, m: Member, val: Value) returns (outcome: Outcome)
      modifies `channels
      ensures Takes(m, val) && Exists(old(channels), name, index) && KnownTransport(m, val)
              ==> outcome == Done
                  && channels == old(channels)[name := old(channels)[name][index := UpdatedChannel(old(channels)[name][index], m, val)]]
      ensures !(Takes(m, val) && Exists(old(channels), name, index) && KnownTransport(m, val)) ==> channels == old(channels)
      ensures outcome == if !Takes(m, val) then Done
                         else if !Exists(old(channels), name, index) then OutOfRange
                         else if !KnownTransport(m, val) then Exits else Done
    {
      if !Takes(m, val) {
        return Done;
      }
      if name !in channels || index >= |channels[name]| {
        return OutOfRange;
      }
      if m.Transport? && TransportOf(val.s).None? {
        return Exits;
      }
      channels := channels[name := channels[name][index := UpdatedChannel(channels[name][index], m, val)]];
      return Done;
    }

    /** The nine entries of one channel, in both maps. */
    method StoreChannel(name: string, index: nat, c: Channel)
      requires Valid()
      modifies `varMap, `keyMap
      ensures Valid()
      ensures forall m :: Stored(varMap, keyMap, name, index, m, c)
      ensures SameOutside(varMap, old(varMap), name, index) && SameOutside(keyMap, old(keyMap), name, index)
    {
      forall m
        ensures Stored(varMap + ValueEntries(name, index, c), keyMap + KeyEntries(name, index), name, index, m, c)
      {
        MergedStored(varMap, keyMap, name, index, c, m);
      }
      MergedOutside(varMap, ValueEntries(name, index, c), name, index);
      MergedOutside(keyMap, KeyEntries(name, index), name, index);
      keyMap := keyMap + KeyEntries(name, index);
      varMap := varMap + ValueEntries(name, index, c);
    }

    /** All channels of one name, and their count. */
    method StoreChannels(name: string)
      requires Valid() && name in channels
      modifies `varMap, `keyMap
      ensures Valid() && AllStored(varMap, keyMap, name, channels[name], |channels[name]|)
      ensures CountStored(varMap, name, |channels[name]|)
      ensures forall key | Foreign(key, name, |channels[name]|) && key != CountKey(name) ::
                SameAt(varMap, old(varMap), key) && SameAt(keyMap, old(keyMap), key)
    {
      var cs := channels[name];
      var index: nat := 0;
      while index < |cs|
        invariant index <= |cs| && Valid() && AllStored(varMap, keyMap, name, cs, index)
        invariant SameForeign(varMap, old(varMap), name, index) && SameForeign(keyMap, old(keyMap), name, index)
      {
        ghost var varMap0, keyMap0 := varMap, keyMap;
        StoreChannel(name, index, cs[index]);
        OneMoreStored(varMap0, keyMap0, varMap, keyMap, name, cs, index);
        OneMoreForeign(old(varMap), varMap0, varMap, name, index);
        OneMoreForeign(old(keyMap), keyMap0, keyMap, name, index);
        index := index + 1;
      }
      CountLeavesStored(varMap, keyMap, name, cs);
      varMap := varMap[CountKey(name) := Int(index)];
    }

    method UpdateMQValues()
      requires Valid()
      modifies `varMap, `keyMap
      ensures Valid() && IsRebuild(old(View()), View(), channels)
      ensures IndexRight(View()) && Agree(View())
    {
      var todo := channels.Keys;
      while todo != {}
        invariant todo <= channels.Keys && Valid()
        invariant forall name, index: nat, m | name !in todo && Exists(channels, name, index) ::
                    Stored(varMap, keyMap, name, index, m, channels[name][index])
        invariant forall name | name in channels && name !in todo :: CountStored(varMap, name, |channels[name]|)
        invariant forall key | !Written(channels, key) :: SameAt(varMap, old(varMap), key) && SameAt(keyMap, old(keyMap), key)
        decreases |todo|
      {
        var name :| name in todo;
        ghost var varMap0, keyMap0 := varMap, keyMap;
        StoreChannels(name);
        forall other, index: nat, m | other !in todo && Exists(channels, other, index)
          ensures Stored(varMap, keyMap, other, index, m, channels[other][index])
        {
          OtherNameKept(name, other, index, m);
          assert Stored(varMap0, keyMap0, other, index, m, channels[other][index]);
          assert SameAt(varMap, varMap0, Key(other, index, m)) && SameAt(keyMap, keyMap0, Key(other, index, m));
        }
        forall other | other in channels && other !in todo
          ensures CountStored(varMap, other, |channels[other]|)
        {
          OtherCountKept(name, other);
          assert CountStored(varMap0, other, |channels[other]|);
          assert SameAt(varMap, varMap0, CountKey(other));
        }
        forall key | !Written(channels, key)
          ensures SameAt(varMap, old(varMap), key) && SameAt(keyMap, old(keyMap), key)
        {
          assert forall index: nat | index < |channels[name]| :: Exists(channels, name, index);
          assert Foreign(key, name, |channels[name]|);
          assert SameAt(varMap, varMap0, key) && SameAt(keyMap, keyMap0, key);
        }
        todo := todo - {name};
      }
      RebuiltAgrees(View());
    }

    method UpdateChannelInfo()
      modifies `channelInfo
      ensures channelInfo == map name | name in channels :: |channels[name]|
    {
      channelInfo := map[];
      var todo := channels.Keys;
      while todo != {}
        invariant todo <= channels.Keys
        invariant channelInfo == map name | name in channels && name !in todo :: |channels[name]|
        decreases |todo|
      {
        var name :| name in todo;
        channelInfo := channelInfo[name := |channels[name]|];
        todo := todo - {name};
      }
    }

    method UpdateChannelMap(newChannels: Channels)
      requires Valid()
      modifies `varMap, `channels, `keyMap, `channelInfo
      ensures Valid() && IsRebuild(old(View()), View(), newChannels)
      ensures IndexRight(View()) && Agree(View())
      ensures channelInfo == map name | name in newChannels :: |newChannels[name]|
    {
      channels := newChannels;
      UpdateChannelInfo();
      UpdateMQValues();
    }
  }

  // ----- how a copy gets out of step -----

  /**
   A second channel map without the channel leaves its keys behind. Setting one of them fails after the
   variable map has changed, and every copy is out of step unless the value is the one that was there.
   */
  method StaleKeyFails(name: string, c: Channel, kind: string)
    returns (options: ProgOptions, ghost before: Options, outcome: Outcome)
    ensures fresh(options) && outcome == OutOfRange
    ensures InStep(before.varMap, before)
    ensures forall copy | InStep(copy, before) :: InStep(copy, options.View()) <==> kind == c.kind
  {
    options := new ProgOptions();
    options.UpdateChannelMap(map[name := [c]]);
    ghost var first := options.View();
    assert Exists(first.channels, name, 0) && first.channels[name][0] == c;
    assert Stored(first.varMap, first.keyMap, name, 0, Type, c);
    options.UpdateChannelMap(map[]);
    before := options.View();
    var key := Key(name, 0, Type);
    assert !Written(before.channels, key);
    assert SameAt(before.varMap, first.varMap, key) && SameAt(before.keyMap, first.keyMap, key);
    outcome := options.SetValue(key, Str(kind));
    forall copy | InStep(copy, before)
      ensures InStep(copy, options.View()) <==> kind == c.kind
    {
      SetKeepsCopyExactly(before, key, Str(kind), copy);
    }
  }

  /** The first channel map is written without a word: the copy that was in step with a new object is not any more. */
  method RebuildIsSilent(channels: Channels) returns (options: ProgOptions)
    ensures fresh(options) && InStep(map[], NEW)
    ensures InStep(map[], options.View()) <==> channels == map[]
  {
    options := new ProgOptions();
    options.UpdateChannelMap(channels);
    RebuildKeepsCopyExactly(NEW, options.View(), channels, map[]);
    if name :| name in channels {
      assert !CountStored(NEW.varMap, name, |channels[name]|);
    }
  }

  /** A value set and then rebuilt to another leaves no copy at all in step. */
  method SetThenRebuilt(name: string, c: Channel, kind: string) returns (options: ProgOptions)
    ensures fresh(options)
    ensures (exists copy :: InStep(copy, options.View())) <==> kind == c.kind
  {
    options := new ProgOptions();
    options.UpdateChannelMap(map[name := [c]]);
    assert Exists(options.channels, name, 0);
    assert Indexed(options.View(), name, 0, Type);
    var key := Key(name, 0, Type);
    var _ := options.SetValue(key, Str(kind));
    assert options.emitted == [(key, Str(kind))];
    options.UpdateChannelMap(map[name := [c]]);
    assert Exists(options.channels, name, 0);
    assert Stored(options.varMap, options.keyMap, name, 0, Type, c);
    assert options.emitted[..0] == [];
    forall k
      ensures LastSet(options.emitted, k) == if k == key then Some(Str(kind)) else None
    {
    }
    SomeCopyInStepExactly(options.View());
    assert LastTold(options.View(), key) <==> kind == c.kind;
  }
}
