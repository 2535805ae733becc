/**
 * One edge node's publisher, a lossy in-order channel and the ingest adapter, run together.
 *
 * The plant is the code; for any one device an observer keeps the history that the theorems speak
 * about: the fate of every number the device ever took, and what the ingest last synchronised on.
 */
module SequenceProtocol {
  import opened Wrappers
  import opened Octets
  import opened Contracts
  import opened Text
  import opened Topics
  import opened SparkplugIngest
  import opened SparkplugPublisher

  datatype Node = Node(group: string, edge: string)

  /** The stream a device's messages arrive under, once its ids have been sanitised into a topic. */
  function KeyOf(node: Node, device: string): StreamKey {
    StreamKey(Sanitize(node.group), Sanitize(node.edge), Sanitize(device))
  }

  function EdgeOf(node: Node): EdgeKey {
    EdgeKey(Sanitize(node.group), Sanitize(node.edge))
  }

  /** It is what the ingest adapter reads off the device's topics, and another device's only if they share those. */
  lemma StreamsAreTopics(verb: string, node: Node, device: string, node': Node, device': string)
    requires Free(verb, '/')
    ensures match ParseDeviceTopic(verb, DeviceTopic(verb, node.group, node.edge, device))
      case Some(p) =>
        KeyOf(node, device) == StreamKey(p.group, p.edge, p.device) && EdgeOf(node) == EdgeKey(p.group, p.edge)
      case None => false
    ensures KeyOf(node, device) == KeyOf(node', device')
       <==> DeviceTopic(verb, node.group, node.edge, device) == DeviceTopic(verb, node'.group, node'.edge, device')
  {
    DeviceTopicRoundTrip(verb, verb, node.group, node.edge, device);
    SharedTopic(verb, node.group, node.edge, device, verb, node'.group, node'.edge, device');
  }

  // ---- The plant ----

  datatype Origin = Numbered(device: string, index: nat) | Reborn(device: string) | Foreign

  datatype Packet = Packet(message: Incoming, origin: Origin)

  /**
   * `taken` counts, without wrapping, the numbers each device took; `requests` counts the rebirth
   * requests on their way to the node or waiting there; `pending` holds the births of a rebirth that is
   * still going on.
   */
  datatype System = System(publisher: PublisherState, taken: map<string, nat>, requests: nat,
                           pending: seq<Attempt>, wire: seq<Packet>, ingest: IngestState, now: nat)

  const START: System := System(SparkplugPublisher.FRESH, map[], 0, [], [], SparkplugIngest.FRESH, 0)

  datatype Action =
    | Announce(discovery: Discovery, nbirthOk: bool, ok: bool)
    | Report(device: string, ok: bool)
    | HostRequest
    | LoseRequest
    | BeginRebirth(order: seq<string>, nbirthOk: bool, outcomes: seq<bool>)
    | NextRebirth
    | Inject(message: Incoming)
    | Lose(position: nat)
    | Deliver(ncmdOk: bool)
    | Wait(ms: nat)

  function BirthMessage(node: Node, d: Discovery, n: nat): Incoming {
    Birth(KeyOf(node, d.device.deviceId), Some(n), d.capabilities != [])
  }

  /** Puts a numbered publish on the wire, or nowhere when it failed. */
  function Send(node: Node, s: System, a: Attempt): System {
    match a
    case NodeBirth(_) => s
    case DeviceBirth(d, n, ok) =>
      var id := d.device.deviceId;
      var k := Current(s.taken, id);
      s.(taken := s.taken[id := k + 1],
         wire := if ok then s.wire + [Packet(BirthMessage(node, d, n), Numbered(id, k))] else s.wire)
    case DeviceData(id, n, ok) =>
      var k := Current(s.taken, id);
      s.(taken := s.taken[id := k + 1],
         wire := if ok then s.wire + [Packet(Data(KeyOf(node, id), Some(n)), Numbered(id, k))] else s.wire)
  }

  /** A birth of a rebirth takes no number: it carries the one it was made with. */
  function RebirthPacket(node: Node, a: Attempt): seq<Packet> {
    if a.DeviceBirth? && a.ok
    then [Packet(BirthMessage(node, a.discovery, a.seqNo), Reborn(a.discovery.device.deviceId))] else []
  }

  /** A rebirth starts from a request, once the one before it is over, and walks all stored discoveries. */
  ghost predicate Begins(s: System, order: seq<string>, outcomes: seq<bool>) {
    s.requests > 0 && s.pending == [] && |outcomes| == |order| && Walks(order, s.publisher.discoveries)
  }

  /**
   * Actions that are not possible in a state leave it unchanged. Rebirths are asked for by this ingest
   * adapter, on a mismatch, or by any other host; requests can be lost, and a request whose node birth
   * fails is spent. Other edge nodes put anything on the wire that the ingest adapter reads.
   */
  ghost function Step(node: Node, s: System, a: Action): System {
    match a
    case Announce(d, nbirthOk, ok) =>
      var (p, sent) := PublishDiscovery(s.publisher, d, nbirthOk, ok);
      if BirthReady(s.publisher, nbirthOk) then Send(node, s.(publisher := p), sent[|sent| - 1]) else s.(publisher := p)
    case Report(id, ok) =>
      var (p, sent) := PublishState(s.publisher, id, ok);
      Send(node, s.(publisher := p), sent[0])
    case HostRequest => s.(requests := s.requests + 1)
    case LoseRequest => if s.requests == 0 then s else s.(requests := s.requests - 1)
    case BeginRebirth(order, nbirthOk, outcomes) =>
      if !Begins(s, order, outcomes) then s
      else s.(requests := s.requests - 1,
              pending := RebirthSent(s.publisher.discoveries, order, nbirthOk, outcomes)[1..])
    case NextRebirth =>
      if s.pending == [] then s
      else s.(pending := s.pending[1..], wire := s.wire + RebirthPacket(node, s.pending[0]))
    case Inject(m) => s.(wire := s.wire + [Packet(m, Foreign)])
    case Lose(i) =>
      if i < |s.wire| then s.(wire := s.wire[..i] + s.wire[i + 1..]) else s
    case Deliver(ncmdOk) =>
      if s.wire == [] then s
      else
        var v := Receive(s.ingest, s.wire[0].message, s.now, ncmdOk);
        s.(wire := s.wire[1..], ingest := v.state,
           requests := s.requests + if v.requested && Edge(s.wire[0].message.key) == EdgeOf(node) then 1 else 0)
    case Wait(ms) => s.(now := s.now + ms)
  }

  ghost function After(node: Node, actions: seq<Action>): System {
    if actions == [] then START
    else Step(node, After(node, actions[..|actions| - 1]), actions[|actions| - 1])
  }

  // ---- The observer of one device ----

  datatype Fate = InFlight | Lost | Unread | Read

  /** What the expected number was last set from: nothing, the number with this index, or a rebirth. */
  datatype Sync = Unknown | At(index: nat) | Restarted

  datatype History = History(log: seq<Fate>, sync: Sync, rebirths: nat, mismatches: nat)

  const BLANK: History := History([], Unknown, 0, 0)

  predicate Usable(m: Incoming) {
    m.Data? || (m.Birth? && m.usable)
  }

  function Synchronised(sync: Sync, p: Packet): Sync {
    if p.message.Death? then Unknown
    else if !Usable(p.message) then sync
    else match p.origin
      case Numbered(_, k) => At(k)
      case Reborn(_) => Restarted
      case Foreign => sync
  }

  function Marked(log: seq<Fate>, device: string, p: Packet, fate: Fate): seq<Fate> {
    if p.origin.Numbered? && p.origin.device == device && p.origin.index < |log|
    then log[p.origin.index := fate] else log
  }

  function Observe(node: Node, device: string, s: System, h: History, a: Action): History {
    match a
    case Announce(d, nbirthOk, ok) =>
      if d.device.deviceId == device && BirthReady(s.publisher, nbirthOk)
      then h.(log := h.log + [if ok then InFlight else Lost]) else h
    case Report(id, ok) =>
      if id == device then h.(log := h.log + [if ok then InFlight else Lost]) else h
    case Lose(i) =>
      if i < |s.wire| then h.(log := Marked(h.log, device, s.wire[i], Lost)) else h
    case Deliver(ncmdOk) =>
      if s.wire == [] then h
      else
        var p := s.wire[0];
        var log := Marked(h.log, device, p, if Usable(p.message) then Read else Unread);
        if p.message.key != KeyOf(node, device) then h.(log := log)
        else History(log, Synchronised(h.sync, p),
                     h.rebirths + (if p.origin.Reborn? && Usable(p.message) then 1 else 0),
                     h.mismatches + (if Receive(s.ingest, p.message, s.now, ncmdOk).mismatch then 1 else 0))
    case _ => h
  }

  ghost function Watch(node: Node, device: string, actions: seq<Action>): History {
    if actions == [] then BLANK
    else
      var before := actions[..|actions| - 1];
      Observe(node, device, After(node, before), Watch(node, device, before), actions[|actions| - 1])
  }

  // ---- Counting over a log ----

  predicate Missed(f: Fate) { f == Lost || f == Unread }

  /** Runs of missed numbers that end in a number the ingest did read. */
  function Gaps(log: seq<Fate>): nat {
    if |log| < 2 then 0
    else Gaps(log[..|log| - 1]) + if log[|log| - 1] == Read && Missed(log[|log| - 2]) then 1 else 0
  }

  /** How many of the numbers strictly between two indices were missed. */
  function MissedBetween(log: seq<Fate>, lo: int, hi: int): nat
    requires -1 <= lo && hi <= |log|
    decreases hi - lo
  {
    if lo + 1 >= hi then 0 else MissedBetween(log, lo, hi - 1) + if Missed(log[hi - 1]) then 1 else 0
  }

  lemma {:induction false} GapsMarked(log: seq<Fate>, k: nat, f: Fate)
    requires k < |log| && log[k] == InFlight && f != InFlight
    ensures Gaps(log[k := f]) >= Gaps(log) + if f == Read && k > 0 && Missed(log[k - 1]) then 1 else 0
  {
    var n := |log| - 1;
    if |log| >= 2 {
      if k == n {
        assert log[k := f][..n] == log[..n];
      } else {
        assert log[k := f][..n] == log[..n][k := f];
        GapsMarked(log[..n], k, f);
      }
    }
  }

  // ---- The invariant ----

  /** No other device shares this device's stream. */
  predicate Apart(device: string, other: string) {
    other == device || Sanitize(other) != Sanitize(device)
  }

  /** A birth or data message on this device's stream. */
  predicate OnStream(node: Node, device: string, m: Incoming) {
    (m.Birth? || m.Data?) && m.key == KeyOf(node, device)
  }

  /** Nothing but the device itself sends births or data on its stream. */
  ghost predicate ActionApart(node: Node, device: string, a: Action) {
    && (a.Announce? ==> Apart(device, a.discovery.device.deviceId))
    && (a.Report? ==> Apart(device, a.device))
    && (a.Inject? ==> !OnStream(node, device, a.message))
  }

  ghost predicate Alone(node: Node, device: string, actions: seq<Action>) {
    forall i :: 0 <= i < |actions| ==> ActionApart(node, device, actions[i])
  }

  ghost predicate PacketFits(node: Node, device: string, log: seq<Fate>, p: Packet) {
    match p.origin
    case Numbered(x, k) =>
      && Apart(device, x)
      && (p.message.Birth? || p.message.Data?) && p.message.key == KeyOf(node, x)
      && (x == device ==> k < |log| && log[k] == InFlight && p.message.seqNo == Some(k % 256))
    case Reborn(x) =>
      Apart(device, x) && p.message.Birth? && p.message.key == KeyOf(node, x) && p.message.seqNo == Some(0)
    case Foreign => !OnStream(node, device, p.message)
  }

  ghost predicate IsNumber(p: Packet, device: string, k: nat) {
    p.origin == Numbered(device, k)
  }

  ghost predicate WireFits(node: Node, device: string, log: seq<Fate>, wire: seq<Packet>) {
    && (forall i :: 0 <= i < |wire| ==> PacketFits(node, device, log, wire[i]))
    && (forall i, j, k, m ::
          0 <= i < j < |wire| && IsNumber(wire[i], device, k) && IsNumber(wire[j], device, m) ==> k < m)
    && (forall k :: 0 <= k < |log| && log[k] == InFlight ==>
          exists i :: 0 <= i < |wire| && IsNumber(wire[i], device, k))
  }

  ghost predicate SyncFits(node: Node, device: string, h: History, expected: map<StreamKey, Byte>) {
    var key := KeyOf(node, device);
    match h.sync
    case Unknown => key !in expected
    case At(j) =>
      && j < |h.log| && h.log[j] == Read
      && key in expected && expected[key] == (j + 1) % 256
      && (forall m :: j < m < |h.log| ==> h.log[m] != Read)
    case Restarted => key in expected && expected[key] == 1
  }

  /** Numbers are settled in order: nothing beyond a number still in flight has been delivered. */
  ghost predicate InOrder(log: seq<Fate>) {
    forall a, b :: 0 <= a < b < |log| && log[a] == InFlight ==> log[b] != Read && log[b] != Unread
  }

  ghost predicate CountersFit(device: string, s: System, log: seq<Fate>) {
    && Current(s.taken, device) == |log|
    && Current(s.publisher.sequence, device) == |log| % 256
  }

  ghost predicate Stored(device: string, s: System) {
    && (forall x :: x in s.publisher.discoveries ==> Apart(device, s.publisher.discoveries[x].device.deviceId))
    && (forall i :: 0 <= i < |s.pending| ==>
          s.pending[i].DeviceBirth? && s.pending[i].seqNo == 0 && Apart(device, s.pending[i].discovery.device.deviceId))
  }

  ghost predicate Inv(node: Node, device: string, s: System, h: History) {
    && CountersFit(device, s, h.log)
    && Stored(device, s)
    && WireFits(node, device, h.log, s.wire)
    && InOrder(h.log)
    && SyncFits(node, device, h, s.ingest.expected)
    && h.mismatches + (if h.sync.Restarted? then 1 else 0) <= Gaps(h.log) + h.rebirths
  }

  lemma SendKeepsWire(node: Node, device: string, log: seq<Fate>, wire: seq<Packet>, p: Packet, log': seq<Fate>)
    requires WireFits(node, device, log, wire) && InOrder(log)
    requires p.origin.Numbered? && p.origin.device == device ==> p.origin.index == |log| && log' == log + [InFlight]
    requires !(p.origin.Numbered? && p.origin.device == device) ==> log' == log
    requires PacketFits(node, device, log', p)
    ensures WireFits(node, device, log', wire + [p]) && InOrder(log')
  {
    var wire' := wire + [p];
    forall k | 0 <= k < |log'| && log'[k] == InFlight
      ensures exists i :: 0 <= i < |wire'| && IsNumber(wire'[i], device, k)
    {
      if k < |log| {
        var i :| 0 <= i < |wire| && IsNumber(wire[i], device, k);
        assert IsNumber(wire'[i], device, k);
      } else {
        assert IsNumber(wire'[|wire|], device, k);
      }
    }
    forall i | 0 <= i < |wire'|
      ensures PacketFits(node, device, log', wire'[i])
    {
      if i < |wire| {
        assert PacketFits(node, device, log, wire[i]);
      }
    }
    forall i, j, k, m | 0 <= i < j < |wire'| && IsNumber(wire'[i], device, k) && IsNumber(wire'[j], device, m)
      ensures k < m
    {
      assert IsNumber(wire[i], device, k);
      assert PacketFits(node, device, log, wire[i]);
      if j < |wire| {
        assert IsNumber(wire[j], device, m);
      }
    }
  }

  /** A number that never reaches the wire is lost at once. */
  lemma FailedSendKeepsWire(node: Node, device: string, log: seq<Fate>, wire: seq<Packet>)
    requires WireFits(node, device, log, wire) && InOrder(log)
    ensures WireFits(node, device, log + [Lost], wire) && InOrder(log + [Lost])
  {
    var log' := log + [Lost];
    forall i | 0 <= i < |wire|
      ensures PacketFits(node, device, log', wire[i])
    {
      assert PacketFits(node, device, log, wire[i]);
    }
    forall k | 0 <= k < |log'| && log'[k] == InFlight
      ensures exists i :: 0 <= i < |wire| && IsNumber(wire[i], device, k)
    {
      assert log[k] == InFlight;
    }
  }

  /** Taking a packet off the wire settles its number and no other. */
  lemma RemoveKeepsWire(node: Node, device: string, log: seq<Fate>, wire: seq<Packet>, at: nat, fate: Fate)
    requires WireFits(node, device, log, wire) && at < |wire| && fate != InFlight
    ensures WireFits(node, device, Marked(log, device, wire[at], fate), wire[..at] + wire[at + 1..])
  {
    var p := wire[at];
    var log' := Marked(log, device, p, fate);
    var wire' := wire[..at] + wire[at + 1..];
    assert PacketFits(node, device, log, p);
    forall i | 0 <= i < |wire'|
      ensures PacketFits(node, device, log', wire'[i])
    {
      var i0 := if i < at then i else i + 1;
      assert wire'[i] == wire[i0] && PacketFits(node, device, log, wire[i0]);
      if wire[i0].origin.Numbered? && wire[i0].origin.device == device
         && p.origin.Numbered? && p.origin.device == device {
        assert IsNumber(wire[i0], device, wire[i0].origin.index) && IsNumber(p, device, p.origin.index);
      }
    }
    forall k | 0 <= k < |log'| && log'[k] == InFlight
      ensures exists i :: 0 <= i < |wire'| && IsNumber(wire'[i], device, k)
    {
      assert log[k] == InFlight;
      var i :| 0 <= i < |wire| && IsNumber(wire[i], device, k);
      assert i != at;
      assert IsNumber(wire'[if i < at then i else i - 1], device, k);
    }
    forall i, j, k, m | 0 <= i < j < |wire'| && IsNumber(wire'[i], device, k) && IsNumber(wire'[j], device, m)
      ensures k < m
    {
      var i0, j0 := if i < at then i else i + 1, if j < at then j else j + 1;
      assert IsNumber(wire[i0], device, k) && IsNumber(wire[j0], device, m);
    }
  }

  /** When a device's number heads the wire, every earlier number of that device is settled. */
  lemma HeadIsOldest(node: Node, device: string, log: seq<Fate>, wire: seq<Packet>, k: nat)
    requires WireFits(node, device, log, wire) && wire != [] && IsNumber(wire[0], device, k)
    ensures k < |log| && forall a :: 0 <= a < k ==> log[a] != InFlight
  {
    assert PacketFits(node, device, log, wire[0]);
    forall i, a | 0 <= i < |wire| && IsNumber(wire[i], device, a)
      ensures k <= a
    {
    }
  }

  lemma SameResidue(j: nat, k: nat)
    requires j < k
    ensures (j + 1) % 256 == k % 256 <==> (k - j - 1) % 256 == 0
  {
  }

  /**
   * What one delivered data message does, for any state the invariant allows: it is out of sequence
   * exactly when it does not follow what the ingest last synchronised on.
   */
  lemma DeliverData(node: Node, device: string, s: System, h: History, ncmdOk: bool)
    requires Inv(node, device, s, h)
    requires s.wire != [] && s.wire[0].message.Data? && s.wire[0].message.key == KeyOf(node, device)
    ensures s.wire[0].origin.Numbered? && s.wire[0].origin.device == device && s.wire[0].origin.index < |h.log|
    ensures h.sync.At? ==> h.sync.index < s.wire[0].origin.index
    ensures Receive(s.ingest, s.wire[0].message, s.now, ncmdOk).mismatch
         == OutOfSequence(h.log, h.sync, s.wire[0].origin.index)
    ensures h.sync.At? && Receive(s.ingest, s.wire[0].message, s.now, ncmdOk).mismatch ==>
      s.wire[0].origin.index > 0 && Missed(h.log[s.wire[0].origin.index - 1])
  {
    var p := s.wire[0];
    assert PacketFits(node, device, h.log, p);
    var k := p.origin.index;
    assert IsNumber(p, device, k);
    HeadIsOldest(node, device, h.log, s.wire, k);
    if h.sync.At? {
      var j := h.sync.index;
      assert j < k;
      AllMissed(h.log, j, k);
      SameResidue(j, k);
    }
  }

  lemma {:induction false} AllMissed(log: seq<Fate>, lo: nat, hi: nat)
    requires lo < hi <= |log|
    requires forall m :: lo < m < hi ==> Missed(log[m])
    ensures MissedBetween(log, lo, hi) == hi - lo - 1
  {
    if lo + 1 < hi {
      AllMissed(log, lo, hi - 1);
    }
  }

  // ---- Every step keeps the invariant ----

  lemma GapsExtended(log: seq<Fate>, f: Fate)
    requires f != Read
    ensures Gaps(log + [f]) == Gaps(log)
  {
    assert (log + [f])[..|log|] == log;
  }

  lemma NextResidue(n: nat)
    ensures (n % 256 + 1) % 256 == (n + 1) % 256
  {
  }

  lemma SyncExtended(node: Node, device: string, h: History, expected: map<StreamKey, Byte>, f: Fate)
    requires SyncFits(node, device, h, expected) && f != Read
    ensures SyncFits(node, device, h.(log := h.log + [f]), expected)
  {
  }

  ghost predicate Takes(a: Attempt, sequence: map<string, nat>, x: string, ok: bool) {
    match a
    case NodeBirth(_) => false
    case DeviceBirth(d, n, ok') => d.device.deviceId == x && n == Current(sequence, x) && ok' == ok
    case DeviceData(id, n, ok') => id == x && n == Current(sequence, x) && ok' == ok
  }

  lemma SendCounts(node: Node, device: string, s: System, log: seq<Fate>, a: Attempt, x: string, ok: bool,
                   p: PublisherState)
    requires CountersFit(device, s, log) && Takes(a, s.publisher.sequence, x, ok)
    requires p.sequence == Advance(s.publisher.sequence, x)
    ensures CountersFit(device, Send(node, s.(publisher := p), a),
                        if x == device then log + [if ok then InFlight else Lost] else log)
  {
    NextResidue(|log|);
  }

  /** Taking a number, whether its publish reaches the wire or not. */
  lemma SendKeeps(node: Node, device: string, s: System, h: History, a: Attempt, x: string, ok: bool, p: PublisherState)
    requires Inv(node, device, s, h) && Apart(device, x)
    requires Takes(a, s.publisher.sequence, x, ok)
    requires p.sequence == Advance(s.publisher.sequence, x)
    requires forall y :: y in p.discoveries ==> Apart(device, p.discoveries[y].device.deviceId)
    ensures Inv(node, device, Send(node, s.(publisher := p), a),
                if x == device then h.(log := h.log + [if ok then InFlight else Lost]) else h)
  {
    var s' := Send(node, s.(publisher := p), a);
    var f := if ok then InFlight else Lost;
    var h' := if x == device then h.(log := h.log + [f]) else h;
    SendCounts(node, device, s, h.log, a, x, ok, p);
    GapsExtended(h.log, f);
    SyncExtended(node, device, h, s.ingest.expected, f);
    if ok {
      SendKeepsWire(node, device, h.log, s.wire, s'.wire[|s.wire|], h'.log);
    } else if x == device {
      FailedSendKeepsWire(node, device, h.log, s.wire);
    }
  }

  /** Whose packet a delivery on this device's stream can be. */
  lemma StreamOwner(node: Node, device: string, log: seq<Fate>, p: Packet)
    requires PacketFits(node, device, log, p) && p.message.key == KeyOf(node, device)
    ensures p.origin.Numbered? ==> p.origin.device == device && p.origin.index < |log|
    ensures p.origin.Reborn? ==> p.origin.device == device
  {
  }

  lemma OtherStreamSync(node: Node, device: string, h: History, p: Packet, s: System, ncmdOk: bool)
    requires SyncFits(node, device, h, s.ingest.expected) && PacketFits(node, device, h.log, p)
    requires p.message.key != KeyOf(node, device)
    ensures SyncFits(node, device, h, Receive(s.ingest, p.message, s.now, ncmdOk).state.expected)
    ensures Marked(h.log, device, p, if Usable(p.message) then Read else Unread) == h.log
  {
  }

  lemma OwnStreamSync(node: Node, device: string, h: History, p: Packet, s: System, ncmdOk: bool)
    requires SyncFits(node, device, h, s.ingest.expected) && InOrder(h.log) && PacketFits(node, device, h.log, p)
    requires p.message.key == KeyOf(node, device)
    ensures var log := Marked(h.log, device, p, if Usable(p.message) then Read else Unread);
      SyncFits(node, device, h.(log := log, sync := Synchronised(h.sync, p)),
               Receive(s.ingest, p.message, s.now, ncmdOk).state.expected)
  {
    StreamOwner(node, device, h.log, p);
    if p.origin.Numbered? {
      NextResidue(p.origin.index);
    }
  }

  lemma SyncMarked(node: Node, device: string, h: History, p: Packet, s: System, ncmdOk: bool)
    requires SyncFits(node, device, h, s.ingest.expected) && InOrder(h.log)
    requires PacketFits(node, device, h.log, p)
    ensures var log := Marked(h.log, device, p, if Usable(p.message) then Read else Unread);
      var expected := Receive(s.ingest, p.message, s.now, ncmdOk).state.expected;
      var sync := if p.message.key == KeyOf(node, device) then Synchronised(h.sync, p) else h.sync;
      SyncFits(node, device, h.(log := log, sync := sync), expected)
  {
    if p.message.key == KeyOf(node, device) {
      OwnStreamSync(node, device, h, p, s, ncmdOk);
    } else {
      OtherStreamSync(node, device, h, p, s, ncmdOk);
    }
  }

  lemma OrderMarked(log: seq<Fate>, k: nat, f: Fate)
    requires InOrder(log) && k < |log| && f != InFlight
    requires forall a :: 0 <= a < k ==> log[a] != InFlight
    ensures InOrder(log[k := f])
  {
  }

  lemma CountAfterBirth(node: Node, device: string, s: System, h: History, ncmdOk: bool)
    requires Inv(node, device, s, h) && s.wire != [] && !s.wire[0].message.Data?
    ensures var h' := Observe(node, device, s, h, Deliver(ncmdOk));
      h'.mismatches + (if h'.sync.Restarted? then 1 else 0) <= Gaps(h'.log) + h'.rebirths
  {
    var p := s.wire[0];
    assert PacketFits(node, device, h.log, p);
    if p.origin.Numbered? && p.origin.device == device {
      GapsMarked(h.log, p.origin.index, if Usable(p.message) then Read else Unread);
    }
  }

  lemma OtherStream(node: Node, device: string, log: seq<Fate>, p: Packet)
    requires PacketFits(node, device, log, p) && p.message.key != KeyOf(node, device)
    requires p.origin.Numbered?
    ensures p.origin.device != device
  {
  }

  lemma CountAfterData(node: Node, device: string, s: System, h: History, ncmdOk: bool)
    requires Inv(node, device, s, h) && s.wire != [] && s.wire[0].message.Data?
    ensures var h' := Observe(node, device, s, h, Deliver(ncmdOk));
      h'.mismatches + (if h'.sync.Restarted? then 1 else 0) <= Gaps(h'.log) + h'.rebirths
  {
    var p := s.wire[0];
    assert PacketFits(node, device, h.log, p);
    if p.message.key == KeyOf(node, device) {
      DeliverData(node, device, s, h, ncmdOk);
      GapsMarked(h.log, p.origin.index, Read);
    } else if p.origin.Numbered? {
      OtherStream(node, device, h.log, p);
    }
  }

  lemma DeliverKeepsWire(node: Node, device: string, log: seq<Fate>, wire: seq<Packet>, fate: Fate)
    requires WireFits(node, device, log, wire) && InOrder(log) && wire != [] && fate != InFlight
    ensures WireFits(node, device, Marked(log, device, wire[0], fate), wire[1..])
    ensures InOrder(Marked(log, device, wire[0], fate))
  {
    var p := wire[0];
    RemoveKeepsWire(node, device, log, wire, 0, fate);
    assert wire[..0] + wire[1..] == wire[1..];
    if p.origin.Numbered? && p.origin.device == device {
      assert IsNumber(p, device, p.origin.index);
      HeadIsOldest(node, device, log, wire, p.origin.index);
      OrderMarked(log, p.origin.index, fate);
    }
  }

  lemma DeliverKeeps(node: Node, device: string, s: System, h: History, ncmdOk: bool)
    requires Inv(node, device, s, h) && s.wire != []
    ensures Inv(node, device, Step(node, s, Deliver(ncmdOk)), Observe(node, device, s, h, Deliver(ncmdOk)))
  {
    var p := s.wire[0];
    var fate := if Usable(p.message) then Read else Unread;
    var s', h' := Step(node, s, Deliver(ncmdOk)), Observe(node, device, s, h, Deliver(ncmdOk));
    assert h'.log == Marked(h.log, device, p, fate);
    DeliverKeepsWire(node, device, h.log, s.wire, fate);
    assert SyncFits(node, device, h', s'.ingest.expected) by {
      assert PacketFits(node, device, h.log, p);
      SyncMarked(node, device, h, p, s, ncmdOk);
    }
    if p.message.Data? {
      CountAfterData(node, device, s, h, ncmdOk);
    } else {
      CountAfterBirth(node, device, s, h, ncmdOk);
    }
  }

  /** Adding a packet that is no numbered publish, or nothing. */
  lemma ExtraKeeps(node: Node, device: string, s: System, h: History, extra: seq<Packet>, s': System)
    requires Inv(node, device, s, h)
    requires s' == s.(wire := s.wire + extra, pending := s'.pending) && (s'.pending == s.pending || s.pending != [])
    requires s'.pending == s.pending || s'.pending == s.pending[1..]
    requires |extra| <= 1 && forall p :: p in extra ==> !p.origin.Numbered? && PacketFits(node, device, h.log, p)
    ensures Inv(node, device, s', h)
  {
    if extra != [] {
      SendKeepsWire(node, device, h.log, s.wire, extra[0], h.log);
      assert s.wire + extra == s.wire + [extra[0]];
    } else {
      assert s.wire + extra == s.wire;
    }
  }

  lemma LostStaysInOrder(log: seq<Fate>, device: string, p: Packet)
    requires InOrder(log)
    ensures InOrder(Marked(log, device, p, Lost))
  {
  }

  lemma LostKeepsSync(node: Node, device: string, h: History, expected: map<StreamKey, Byte>, p: Packet)
    requires SyncFits(node, device, h, expected)
    requires p.origin.Numbered? && p.origin.device == device && p.origin.index < |h.log| ==>
      h.log[p.origin.index] == InFlight
    ensures SyncFits(node, device, h.(log := Marked(h.log, device, p, Lost)), expected)
  {
  }

  lemma LoseKeeps(node: Node, device: string, s: System, h: History, i: nat)
    requires Inv(node, device, s, h) && i < |s.wire|
    ensures Inv(node, device, Step(node, s, Lose(i)), Observe(node, device, s, h, Lose(i)))
  {
    var p := s.wire[i];
    var log' := Marked(h.log, device, p, Lost);
    assert PacketFits(node, device, h.log, p);
    RemoveKeepsWire(node, device, h.log, s.wire, i, Lost);
    if p.origin.Numbered? && p.origin.device == device {
      GapsMarked(h.log, p.origin.index, Lost);
    }
    LostStaysInOrder(h.log, device, p);
    LostKeepsSync(node, device, h, s.ingest.expected, p);
  }

  lemma AnnounceKeeps(node: Node, device: string, s: System, h: History, d: Discovery, nbirthOk: bool, ok: bool)
    requires Inv(node, device, s, h) && Apart(device, d.device.deviceId)
    ensures Inv(node, device, Step(node, s, Announce(d, nbirthOk, ok)),
                Observe(node, device, s, h, Announce(d, nbirthOk, ok)))
  {
    var (p, sent) := PublishDiscovery(s.publisher, d, nbirthOk, ok);
    if BirthReady(s.publisher, nbirthOk) {
      SendKeeps(node, device, s, h, sent[|sent| - 1], d.device.deviceId, ok, p);
    }
  }

  lemma StepKeeps(node: Node, device: string, s: System, h: History, a: Action)
    requires Inv(node, device, s, h) && ActionApart(node, device, a)
    ensures Inv(node, device, Step(node, s, a), Observe(node, device, s, h, a))
  {
    match a
    case Announce(d, nbirthOk, ok) => AnnounceKeeps(node, device, s, h, d, nbirthOk, ok);
    case Report(id, ok) =>
      var (p, sent) := PublishState(s.publisher, id, ok);
      SendKeeps(node, device, s, h, sent[0], id, ok, p);
    case NextRebirth =>
      if s.pending != [] {
        ExtraKeeps(node, device, s, h, RebirthPacket(node, s.pending[0]), Step(node, s, a));
      }
    case Inject(m) => ExtraKeeps(node, device, s, h, [Packet(m, Foreign)], Step(node, s, a));
    case Lose(i) =>
      if i < |s.wire| {
        LoseKeeps(node, device, s, h, i);
      }
    case Deliver(ncmdOk) =>
      if s.wire != [] {
        DeliverKeeps(node, device, s, h, ncmdOk);
      }
    case _ =>
  }

  lemma {:induction false} RunKeeps(node: Node, device: string, actions: seq<Action>)
    requires Alone(node, device, actions)
    ensures Inv(node, device, After(node, actions), Watch(node, device, actions))
  {
    if actions != [] {
      var before := actions[..|actions| - 1];
      RunKeeps(node, device, before);
      StepKeeps(node, device, After(node, before), Watch(node, device, before), actions[|actions| - 1]);
    }
  }

  // ---- Theorems ----

  predicate Bounded(h: History) {
    h.mismatches <= Gaps(h.log) + h.rebirths
  }

  /**
   * In every run in which nothing else sends on a device's stream, the mismatches found there number at
   * most its loss gaps plus the rebirth births delivered to it.
   */
  lemma MismatchBound(node: Node, device: string, actions: seq<Action>)
    requires Alone(node, device, actions)
    ensures Bounded(Watch(node, device, actions))
  {
    RunKeeps(node, device, actions);
  }

  /** Whether the number with index `k` does not follow what the ingest last synchronised on. */
  predicate OutOfSequence(log: seq<Fate>, sync: Sync, k: nat)
    requires k <= |log|
  {
    match sync
    case Unknown => false
    case At(j) => MissedBetween(log, j, k) % 256 != 0
    case Restarted => k % 256 != 1
  }

  /**
   * Exactly when the next delivery, if it is data on this stream, is found out of sequence: after a
   * number of this device, when the numbers missed in between are not a multiple of 256; after a rebirth,
   * unless the number is 1 mod 256; never with nothing to compare to.
   */
  ghost predicate Predicted(node: Node, device: string, actions: seq<Action>, ncmdOk: bool) {
    var (s, h) := (After(node, actions), Watch(node, device, actions));
    s.wire != [] && s.wire[0].message.Data? && s.wire[0].message.key == KeyOf(node, device) ==>
      var origin := s.wire[0].origin;
      && origin.Numbered? && origin.device == device && origin.index < |h.log|
      && (h.sync.At? ==> h.sync.index < origin.index)
      && Watch(node, device, actions + [Deliver(ncmdOk)]).mismatches
         == h.mismatches + if OutOfSequence(h.log, h.sync, origin.index) then 1 else 0
  }

  /** The prediction is right after every run in which nothing else sends on the device's stream. */
  lemma MismatchExactly(node: Node, device: string, actions: seq<Action>, ncmdOk: bool)
    requires Alone(node, device, actions)
    ensures Predicted(node, device, actions, ncmdOk)
  {
    var s := After(node, actions);
    if s.wire != [] && s.wire[0].message.Data? && s.wire[0].message.key == KeyOf(node, device) {
      RunKeeps(node, device, actions);
      DeliverData(node, device, s, Watch(node, device, actions), ncmdOk);
      assert (actions + [Deliver(ncmdOk)])[..|actions|] == actions;
    }
  }

  lemma StepCounts(node: Node, device: string, s: System, h: History, a: Action)
    requires CountersFit(device, s, h.log)
    ensures CountersFit(device, Step(node, s, a), Observe(node, device, s, h, a).log)
  {
    match a
    case Announce(d, nbirthOk, ok) =>
      var (p, sent) := PublishDiscovery(s.publisher, d, nbirthOk, ok);
      if BirthReady(s.publisher, nbirthOk) {
        SendCounts(node, device, s, h.log, sent[|sent| - 1], d.device.deviceId, ok, p);
      }
    case Report(id, ok) =>
      var (p, sent) := PublishState(s.publisher, id, ok);
      SendCounts(node, device, s, h.log, sent[0], id, ok, p);
    case _ =>
  }

  lemma WrapIsResidue(n: nat)
    ensures WrappingIncrement(n % 256) == (n + 1) % 256
  {
  }

  /**
   * The publisher's wrapped counter is the count of numbers the device ever took, mod 256, whatever
   * other devices do in between; and the ingest's byte increment continues it.
   */
  lemma {:induction false} CounterIsCount(node: Node, device: string, actions: seq<Action>)
    ensures var s := After(node, actions);
      CountersFit(device, s, Watch(node, device, actions).log)
      && WrappingIncrement(Current(s.publisher.sequence, device)) == (|Watch(node, device, actions).log| + 1) % 256
  {
    if actions != [] {
      var before := actions[..|actions| - 1];
      CounterIsCount(node, device, before);
      StepCounts(node, device, After(node, before), Watch(node, device, before), actions[|actions| - 1]);
    }
    WrapIsResidue(|Watch(node, device, actions).log|);
  }

  // ---- Loss-free runs of a whole fleet ----

  /** A device of one of the edge nodes that the ingest adapter reads. */
  type Member = (Node, string)

  function StreamOf(b: Member): StreamKey {
    KeyOf(b.0, b.1)
  }

  /** No two devices of the fleet, at one node or at two, share a stream. */
  predicate DistinctStreams(fleet: set<Member>) {
    forall a, b :: a in fleet && b in fleet && StreamOf(a) == StreamOf(b) ==> a == b
  }

  /** What the other nodes of a fleet send: births and data, with any numbers, on their own streams. */
  ghost predicate FromOthers(node: Node, fleet: set<Member>, m: Incoming) {
    (m.Birth? || m.Data?) && exists b :: b in fleet && b.0 != node && m.key == StreamOf(b)
  }

  /** Only usable announcements and reports from the fleet, all publishes succeeding and nothing lost. */
  ghost predicate LossFree(node: Node, fleet: set<Member>, a: Action) {
    match a
    case Announce(d, _, ok) => ok && (node, d.device.deviceId) in fleet && d.capabilities != []
    case Report(id, ok) => ok && (node, id) in fleet
    case Inject(m) => FromOthers(node, fleet, m)
    case Deliver(_) => true
    case Wait(_) => true
    case _ => false
  }

  ghost predicate Quiet(node: Node, fleet: set<Member>, actions: seq<Action>) {
    forall i :: 0 <= i < |actions| ==> LossFree(node, fleet, actions[i])
  }

  lemma {:induction false} QuietLeavesNoGap(node: Node, device: string, fleet: set<Member>, actions: seq<Action>)
    requires Quiet(node, fleet, actions)
    ensures var (s, h) := (After(node, actions), Watch(node, device, actions));
      && h.rebirths == 0 && s.pending == []
      && (forall i :: 0 <= i < |h.log| ==> !Missed(h.log[i]))
      && (forall i :: 0 <= i < |s.wire| ==>
            s.wire[i].origin.Foreign? || (s.wire[i].origin.Numbered? && Usable(s.wire[i].message)))
  {
    if actions != [] {
      QuietLeavesNoGap(node, device, fleet, actions[..|actions| - 1]);
      assert LossFree(node, fleet, actions[|actions| - 1]);
    }
  }

  lemma {:induction false} NoMissedNoGaps(log: seq<Fate>)
    requires forall i :: 0 <= i < |log| ==> !Missed(log[i])
    ensures Gaps(log) == 0
  {
    if |log| >= 2 {
      NoMissedNoGaps(log[..|log| - 1]);
    }
  }

  /** With distinct streams a fleet leaves each of its devices alone on its stream. */
  lemma FleetLeavesAlone(node: Node, device: string, fleet: set<Member>, a: Action)
    requires DistinctStreams(fleet) && (node, device) in fleet
    requires a.Announce? ==> (node, a.discovery.device.deviceId) in fleet
    requires a.Report? ==> (node, a.device) in fleet
    requires a.Inject? ==> a.message.Death? || a.message.EmptyBirth? || FromOthers(node, fleet, a.message)
    ensures ActionApart(node, device, a)
  {
    assert StreamOf((node, device)) == KeyOf(node, device);
    if a.Announce? {
      assert StreamOf((node, a.discovery.device.deviceId)) == KeyOf(node, a.discovery.device.deviceId);
    }
    if a.Report? {
      assert StreamOf((node, a.device)) == KeyOf(node, a.device);
    }
  }

  lemma QuietRunHasNoMismatch(node: Node, device: string, fleet: set<Member>, actions: seq<Action>)
    requires Quiet(node, fleet, actions) && DistinctStreams(fleet) && (node, device) in fleet
    ensures Watch(node, device, actions).mismatches == 0
  {
    forall i | 0 <= i < |actions|
      ensures ActionApart(node, device, actions[i])
    {
      assert LossFree(node, fleet, actions[i]);
      FleetLeavesAlone(node, device, fleet, actions[i]);
    }
    MismatchBound(node, device, actions);
    QuietLeavesNoGap(node, device, fleet, actions);
    NoMissedNoGaps(Watch(node, device, actions).log);
  }

  /** The first report of another member: by this node, or by another one. */
  function FirstReport(node: Node, other: Member): Action {
    if other.0 == node then Report(other.1, true) else Inject(Data(StreamOf(other), Some(0)))
  }

  /** Two members with one stream: two reports of this node's, then one of the other's. */
  function Collision(node: Node, x: string, other: Member): seq<Action> {
    [Report(x, true), Report(x, true), FirstReport(node, other), Deliver(true), Deliver(true), Deliver(true)]
  }

  lemma AfterStep(node: Node, device: string, before: seq<Action>, a: Action)
    ensures After(node, before + [a]) == Step(node, After(node, before), a)
    ensures Watch(node, device, before + [a])
         == Observe(node, device, After(node, before), Watch(node, device, before), a)
  {
    assert (before + [a])[..|before|] == before;
  }

  function Reporting(node: Node, s: System, x: string): System {
    s.(publisher := s.publisher.(sequence := Advance(s.publisher.sequence, x)),
       taken := s.taken[x := Current(s.taken, x) + 1],
       wire := s.wire + [Packet(Data(KeyOf(node, x), Some(Current(s.publisher.sequence, x))),
                                Numbered(x, Current(s.taken, x)))])
  }

  lemma ReportStep(node: Node, s: System, x: string)
    ensures Step(node, s, Report(x, true)) == Reporting(node, s, x)
  {
  }

  /** One more successful report. */
  lemma Reported(node: Node, device: string, before: seq<Action>, x: string)
    ensures After(node, before + [Report(x, true)]) == Reporting(node, After(node, before), x)
    ensures Watch(node, device, before + [Report(x, true)])
         == var h := Watch(node, device, before); if x == device then h.(log := h.log + [InFlight]) else h
  {
    AfterStep(node, device, before, Report(x, true));
    ReportStep(node, After(node, before), x);
  }

  /** One more delivery of a data message on the device's stream. */
  lemma Delivered(node: Node, device: string, before: seq<Action>, n: Byte)
    requires After(node, before).wire != []
    requires After(node, before).wire[0].message == Data(KeyOf(node, device), Some(n))
    ensures var (s, s') := (After(node, before), After(node, before + [Deliver(true)]));
      var key := KeyOf(node, device);
      && s'.wire == s.wire[1..]
      && s'.ingest.expected == s.ingest.expected[key := WrappingIncrement(n)]
      && Watch(node, device, before + [Deliver(true)]).mismatches
         == Watch(node, device, before).mismatches
            + if key in s.ingest.expected && s.ingest.expected[key] != n then 1 else 0
  {
    AfterStep(node, device, before, Deliver(true));
  }

  lemma Intruded(node: Node, x: string, other: Member, before: seq<Action>)
    requires other != (node, x) && StreamOf(other) == KeyOf(node, x)
    requires Current(After(node, before).publisher.sequence, other.1) == 0 || other.0 != node
    ensures var (s, s') := (After(node, before), After(node, before + [FirstReport(node, other)]));
      && s'.ingest == s.ingest && |s'.wire| == |s.wire| + 1 && s'.wire[..|s.wire|] == s.wire
      && s'.wire[|s.wire|].message == Data(KeyOf(node, x), Some(0))
      && Current(s'.publisher.sequence, x) == Current(s.publisher.sequence, x)
    ensures Watch(node, x, before + [FirstReport(node, other)]) == Watch(node, x, before)
  {
    if other.0 == node {
      Reported(node, x, before, other.1);
    } else {
      AfterStep(node, x, before, FirstReport(node, other));
    }
  }

  /** The collision's wire once all three reports are sent. */
  lemma {:induction false} CollisionSent(node: Node, x: string, other: Member)
    requires other != (node, x) && StreamOf(other) == KeyOf(node, x)
    ensures var s := After(node, Collision(node, x, other)[..3]);
      && s.ingest == SparkplugIngest.FRESH && |s.wire| == 3
      && s.wire[0].message == Data(KeyOf(node, x), Some(0))
      && s.wire[1].message == Data(KeyOf(node, x), Some(1))
      && s.wire[2].message == Data(KeyOf(node, x), Some(0))
      && Current(s.publisher.sequence, x) == 2
    ensures Watch(node, x, Collision(node, x, other)[..3]).mismatches == 0
  {
    var r: Action := Report(x, true);
    assert Collision(node, x, other)[..3] == [] + [r] + [r] + [FirstReport(node, other)];
    Reported(node, x, [], x);
    Reported(node, x, [] + [r], x);
    Intruded(node, x, other, [] + [r] + [r]);
  }

  lemma {:induction false} CollisionMismatches(node: Node, x: string, other: Member)
    requires other != (node, x) && StreamOf(other) == KeyOf(node, x)
    ensures Watch(node, x, Collision(node, x, other)).mismatches == 1
  {
    CollisionSent(node, x, other);
    var c, d := Collision(node, x, other)[..3], Deliver(true);
    assert Collision(node, x, other) == c + [d] + [d] + [d];
    Delivered(node, x, c, 0);
    Delivered(node, x, c + [d], 1);
    Delivered(node, x, c + [d] + [d], 0);
  }

  lemma CollisionIsQuiet(node: Node, x: string, other: Member, fleet: set<Member>)
    requires (node, x) in fleet && other in fleet
    ensures Quiet(node, fleet, Collision(node, x, other))
  {
    var actions := Collision(node, x, other);
    forall i | 0 <= i < |actions|
      ensures LossFree(node, fleet, actions[i])
    {
      if i == 2 && other.0 != node {
        assert FromOthers(node, fleet, actions[i].message);
      }
    }
  }

  /**
   * With no loss and no rebirth the ingest never sees a mismatch, in any run of a fleet, exactly when no
   * two of its devices share a stream: the counters are kept per node and raw id.
   */
  lemma QuietFleetTheorem(fleet: set<Member>)
    ensures DistinctStreams(fleet)
       <==> forall node, device, actions :: (node, device) in fleet && Quiet(node, fleet, actions) ==>
              Watch(node, device, actions).mismatches == 0
  {
    if DistinctStreams(fleet) {
      forall node, device, actions | (node, device) in fleet && Quiet(node, fleet, actions)
        ensures Watch(node, device, actions).mismatches == 0
      {
        QuietRunHasNoMismatch(node, device, fleet, actions);
      }
    } else {
      var a, b :| a in fleet && b in fleet && StreamOf(a) == StreamOf(b) && a != b;
      CollisionMismatches(a.0, a.1, b);
      CollisionIsQuiet(a.0, a.1, b, fleet);
      assert (a.0, a.1) == a;
    }
  }

  // ---- Any run of a whole fleet ----

  /** Births and data come from the fleet; losses, failures, deaths and rebirths as they may. */
  ghost predicate FleetAction(node: Node, fleet: set<Member>, a: Action) {
    && (a.Announce? ==> (node, a.discovery.device.deviceId) in fleet)
    && (a.Report? ==> (node, a.device) in fleet)
    && (a.Inject? ==> a.message.Death? || a.message.EmptyBirth? || FromOthers(node, fleet, a.message))
  }

  ghost predicate FleetRun(node: Node, fleet: set<Member>, actions: seq<Action>) {
    forall i :: 0 <= i < |actions| ==> FleetAction(node, fleet, actions[i])
  }

  lemma FleetRunAlone(node: Node, device: string, fleet: set<Member>, actions: seq<Action>)
    requires DistinctStreams(fleet) && (node, device) in fleet && FleetRun(node, fleet, actions)
    ensures Alone(node, device, actions)
  {
    forall i | 0 <= i < |actions|
      ensures ActionApart(node, device, actions[i])
    {
      assert FleetAction(node, fleet, actions[i]);
      FleetLeavesAlone(node, device, fleet, actions[i]);
    }
  }

  lemma QuietIsFleetRun(node: Node, fleet: set<Member>, actions: seq<Action>)
    requires Quiet(node, fleet, actions)
    ensures FleetRun(node, fleet, actions)
  {
    forall i | 0 <= i < |actions|
      ensures FleetAction(node, fleet, actions[i])
    {
      assert LossFree(node, fleet, actions[i]);
    }
  }

  /**
   * The bound on mismatches holds for every device in every run of a fleet, over any number of edge
   * nodes, exactly when no two of its devices share a stream.
   */
  lemma MismatchFleetTheorem(fleet: set<Member>)
    ensures DistinctStreams(fleet)
       <==> forall node, device, actions :: (node, device) in fleet && FleetRun(node, fleet, actions) ==>
              Bounded(Watch(node, device, actions))
  {
    if DistinctStreams(fleet) {
      forall node, device, actions | (node, device) in fleet && FleetRun(node, fleet, actions)
        ensures Bounded(Watch(node, device, actions))
      {
        FleetRunAlone(node, device, fleet, actions);
        MismatchBound(node, device, actions);
      }
    } else {
      var a, b :| a in fleet && b in fleet && StreamOf(a) == StreamOf(b) && a != b;
      assert (a.0, a.1) == a;
      CollisionUnbounded(a.0, a.1, b, fleet);
    }
  }

  lemma CollisionUnbounded(node: Node, x: string, other: Member, fleet: set<Member>)
    requires (node, x) in fleet && other in fleet && other != (node, x) && StreamOf(other) == KeyOf(node, x)
    ensures FleetRun(node, fleet, Collision(node, x, other)) && !Bounded(Watch(node, x, Collision(node, x, other)))
  {
    CollisionMismatches(node, x, other);
    CollisionIsQuiet(node, x, other, fleet);
    QuietIsFleetRun(node, fleet, Collision(node, x, other));
    QuietLeavesNoGap(node, x, fleet, Collision(node, x, other));
    NoMissedNoGaps(Watch(node, x, Collision(node, x, other)).log);
  }

  /** Another member's first report is taken for this device's. */
  lemma FirstReportInFleet(node: Node, other: Member, fleet: set<Member>)
    requires other in fleet
    ensures FleetRun(node, fleet, [FirstReport(node, other)])
  {
    var a := FirstReport(node, other);
    if other.0 != node {
      assert FromOthers(node, fleet, a.message);
    }
    assert FleetAction(node, fleet, a);
  }

  lemma NothingLogged(node: Node, device: string, actions: seq<Action>)
    requires Watch(node, device, actions) == BLANK
    requires var s := After(node, actions); s.wire != [] && OnStream(node, device, s.wire[0].message)
    requires After(node, actions).wire[0].message.Data?
    ensures !Predicted(node, device, actions, true)
  {
  }

  lemma FirstReportUnpredicted(node: Node, x: string, other: Member, fleet: set<Member>)
    requires (node, x) in fleet && other in fleet && other != (node, x) && StreamOf(other) == KeyOf(node, x)
    ensures FleetRun(node, fleet, [FirstReport(node, other)])
    ensures !Predicted(node, x, [FirstReport(node, other)], true)
  {
    FirstReportInFleet(node, other, fleet);
    Intruded(node, x, other, []);
    assert [] + [FirstReport(node, other)] == [FirstReport(node, other)];
    NothingLogged(node, x, [FirstReport(node, other)]);
  }

  /**
   * The prediction is right for every device after every run of a fleet, over any number of edge nodes,
   * exactly when no two of its devices share a stream.
   */
  lemma PredictionFleetTheorem(fleet: set<Member>)
    ensures DistinctStreams(fleet)
       <==> forall node, device, actions, ncmdOk :: (node, device) in fleet && FleetRun(node, fleet, actions) ==>
              Predicted(node, device, actions, ncmdOk)
  {
    if DistinctStreams(fleet) {
      forall node, device, actions, ncmdOk | (node, device) in fleet && FleetRun(node, fleet, actions)
        ensures Predicted(node, device, actions, ncmdOk)
      {
        FleetRunAlone(node, device, fleet, actions);
        MismatchExactly(node, device, actions, ncmdOk);
      }
    } else {
      var a, b :| a in fleet && b in fleet && StreamOf(a) == StreamOf(b) && a != b;
      assert (a.0, a.1) == a;
      FirstReportUnpredicted(a.0, a.1, b, fleet);
    }
  }
}
