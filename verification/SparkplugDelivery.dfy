/** From a publish's bytes to the message the sequence protocol speaks about, and from a rebirth to the wire. */
module SparkplugDelivery {
  import opened Wrappers
  import opened Contracts
  import opened Octets
  import opened Text
  import opened Topics
  import opened SparkplugIngest
  import opened SparkplugPublisher
  import opened SparkplugPayload
  import opened SparkplugMessages
  import opened SequenceProtocol

  function StreamAt(p: DevicePath): StreamKey {
    StreamKey(p.group, p.edge, p.device)
  }

  function RawSeq(bytes: Bytes): Option<nat> {
    var p :- DecodePayload(bytes);
    p.seqNo
  }

  /** What the ingest event loop makes of a publish; everything but births, data and deaths of devices is skipped. */
  function ReadPublish(topic: string, bytes: Bytes): Option<Incoming> {
    match (ParseDeviceTopic("DBIRTH", topic), ParseDeviceTopic("DDATA", topic), ParseDeviceTopic("DDEATH", topic))
    case (Some(p), _, _) =>
      Some(if bytes == [] then EmptyBirth(StreamAt(p))
           else Birth(StreamAt(p), RawSeq(bytes), ReadDiscovery(bytes).Some?))
    case (None, Some(p), _) => Some(Data(StreamAt(p), RawSeq(bytes)))
    case (None, None, Some(p)) => Some(Death(StreamAt(p)))
    case _ => None
  }

  /** The capabilities of a discovery with their names as bytes. */
  predicate Encodes(caps: seq<(Bytes, CapabilityKind)>, d: Discovery) {
    |caps| == |d.capabilities| && forall i :: 0 <= i < |caps| ==> caps[i].1 == d.capabilities[i].kind
  }

  lemma PayloadIsNotEmpty(p: Payload)
    requires PayloadFits(p) && p != NO_PAYLOAD
    ensures EncodePayload(p) != []
  {
    PayloadRoundTrip(p);
  }

  /**
   * The bytes of a device birth, published on the device's topic, are read as the birth message the
   * sequence protocol sends: on the device's stream, with its number, usable when it has capabilities.
   */
  lemma BirthIsRead(node: Node, d: Discovery, caps: seq<(Bytes, CapabilityKind)>, n: nat, now: nat)
    requires Encodes(caps, d) && PayloadFits(DiscoveryPayload(caps, n, now))
    ensures ReadPublish(DeviceTopic("DBIRTH", node.group, node.edge, d.device.deviceId),
                        EncodePayload(DiscoveryPayload(caps, n, now)))
         == Some(BirthMessage(node, d, n))
  {
    assert Free("DBIRTH", '/');
    DeviceTopicRoundTrip("DBIRTH", "DBIRTH", node.group, node.edge, d.device.deviceId);
    PayloadIsNotEmpty(DiscoveryPayload(caps, n, now));
    PayloadRoundTrip(DiscoveryPayload(caps, n, now));
    BirthCapabilities(caps, n, now);
  }

  /** So are the bytes of a report, and nothing else but the number matters there. */
  lemma DataIsRead(node: Node, device: string, name: Bytes, v: StateValue, at: nat, n: nat)
    requires PayloadFits(StatePayload(name, v, at, n))
    ensures ReadPublish(DeviceTopic("DDATA", node.group, node.edge, device),
                        EncodePayload(StatePayload(name, v, at, n)))
         == Some(Data(KeyOf(node, device), Some(n)))
  {
    assert Free("DDATA", '/') && "DDATA" != "DBIRTH";
    DeviceTopicRoundTrip("DDATA", "DBIRTH", node.group, node.edge, device);
    DeviceTopicRoundTrip("DDATA", "DDATA", node.group, node.edge, device);
    PayloadRoundTrip(StatePayload(name, v, at, n));
  }

  // ---- A rebirth on the wire ----

  /** Goes on with a rebirth `n` times. */
  ghost function GoingOn(node: Node, s: System, n: nat): System {
    if n == 0 then s else Step(node, GoingOn(node, s, n - 1), NextRebirth)
  }

  /** The messages that births leave on the wire: those of the births that were published, in order. */
  function Carried(node: Node, births: seq<Attempt>): seq<Packet> {
    if births == [] then []
    else
      Carried(node, births[..|births| - 1]) + match births[|births| - 1]
        case DeviceBirth(d, n, true) =>
          [Packet(Birth(KeyOf(node, d.device.deviceId), Some(n), d.capabilities != []), Reborn(d.device.deviceId))]
        case _ => []
  }

  lemma {:induction false} BirthsCarried(node: Node, s: System, n: nat)
    requires n <= |s.pending|
    ensures GoingOn(node, s, n) == s.(pending := s.pending[n..], wire := s.wire + Carried(node, s.pending[..n]))
  {
    if n == 0 {
      assert s.wire + [] == s.wire;
    } else {
      BirthsCarried(node, s, n - 1);
      var t := GoingOn(node, s, n - 1);
      assert s.pending[..n][..n - 1] == s.pending[..n - 1] && s.pending[n - 1..][1..] == s.pending[n..];
      assert t.pending[0] == s.pending[n - 1];
    }
  }

  /**
   * A whole rebirth: it spends one request and leaves on the wire, behind what was there, the births
   * of all stored discoveries that were published, with number 0; and nothing when its node birth fails.
   */
  lemma RebirthCarried(node: Node, s: System, order: seq<string>, nbirthOk: bool, outcomes: seq<bool>)
    requires Begins(s, order, outcomes)
    ensures var births := if nbirthOk then Births(s.publisher.discoveries, order, outcomes) else [];
      GoingOn(node, Step(node, s, BeginRebirth(order, nbirthOk, outcomes)), |births|)
      == s.(requests := s.requests - 1, wire := s.wire + Carried(node, births))
  {
    var births := if nbirthOk then Births(s.publisher.discoveries, order, outcomes) else [];
    var t := Step(node, s, BeginRebirth(order, nbirthOk, outcomes));
    assert t.pending == births;
    BirthsCarried(node, t, |births|);
    assert births[..|births|] == births && births[|births|..] == [];
  }
}
