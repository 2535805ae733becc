/** The Sparkplug publish adapter: per-device sequence numbers, stored discoveries and rebirth. */
module SparkplugPublisher {
  import opened Wrappers
  import opened Contracts

  datatype PublisherState = PublisherState(sequence: map<string, nat>, discoveries: map<string, Discovery>,
                                           nbirthPublished: bool)

  const FRESH: PublisherState := PublisherState(map[], map[], false)

  /** A publish handed to the MQTT client, with its outcome. */
  datatype Attempt =
    | NodeBirth(ok: bool)
    | DeviceBirth(discovery: Discovery, seqNo: nat, ok: bool)
    | DeviceData(device: string, seqNo: nat, ok: bool)

  function Current(sequence: map<string, nat>, device: string): nat {
    if device in sequence then sequence[device] else 0
  }

  function Advance(sequence: map<string, nat>, device: string): map<string, nat> {
    sequence[device := (Current(sequence, device) + 1) % 256]
  }

  /** Whether `publish_discovery` gets past the node birth. */
  predicate BirthReady(p: PublisherState, nbirthOk: bool) {
    p.nbirthPublished || nbirthOk
  }

  function PublishDiscovery(p: PublisherState, d: Discovery, nbirthOk: bool, ok: bool): (PublisherState, seq<Attempt>) {
    var id := d.device.deviceId;
    var nbirth := if p.nbirthPublished then [] else [NodeBirth(nbirthOk)];
    if !BirthReady(p, nbirthOk) then (p.(nbirthPublished := true), nbirth)
    else (PublisherState(Advance(p.sequence, id), p.discoveries[id := d], true),
          nbirth + [DeviceBirth(d, Current(p.sequence, id), ok)])
  }

  function PublishState(p: PublisherState, device: string, ok: bool): (PublisherState, seq<Attempt>) {
    (p.(sequence := Advance(p.sequence, device)), [DeviceData(device, Current(p.sequence, device), ok)])
  }

  /** A walk over every stored discovery, each once. */
  ghost predicate Walks(order: seq<string>, discoveries: map<string, Discovery>) {
    && (forall i, j :: 0 <= i < j < |order| ==> order[i] != order[j])
    && (forall x :: x in discoveries <==> x in order)
  }

  /** What a rebirth announces: every stored discovery with number 0, in walking order. */
  function Births(discoveries: map<string, Discovery>, order: seq<string>, outcomes: seq<bool>): seq<Attempt>
    requires |outcomes| == |order|
    requires forall i :: 0 <= i < |order| ==> order[i] in discoveries
  {
    seq(|order|, i requires 0 <= i < |order| => DeviceBirth(discoveries[order[i]], 0, outcomes[i]))
  }

  /** One rebirth: the node birth, and the births of all stored discoveries unless it fails. */
  function RebirthSent(discoveries: map<string, Discovery>, order: seq<string>, nbirthOk: bool,
                       outcomes: seq<bool>): (sent: seq<Attempt>)
    requires |outcomes| == |order|
    requires forall i :: 0 <= i < |order| ==> order[i] in discoveries
    ensures |sent| >= 1
  {
    [NodeBirth(nbirthOk)] + if nbirthOk then Births(discoveries, order, outcomes) else []
  }

  class PublishAdapter {
    var sequenceByDevice: map<string, nat>
    var discoveries: map<string, Discovery>
    var nbirthPublished: bool

    function State(): PublisherState
      reads this
    {
      PublisherState(sequenceByDevice, discoveries, nbirthPublished)
    }

    constructor ()
      ensures State() == FRESH
    {
      sequenceByDevice, discoveries, nbirthPublished := map[], map[], false;
    }

    method NextSeq(device: string) returns (current: nat)
      modifies this`sequenceByDevice
      ensures current == Current(old(sequenceByDevice), device)
      ensures sequenceByDevice == Advance(old(sequenceByDevice), device)
    {
      if device !in sequenceByDevice {
        sequenceByDevice := sequenceByDevice[device := 0];
      }
      current := sequenceByDevice[device];
      sequenceByDevice := sequenceByDevice[device := (sequenceByDevice[device] + 1) % 256];
    }

    method Discover(d: Discovery, nbirthOk: bool, ok: bool) returns (sent: seq<Attempt>, succeeded: bool)
      modifies this
      ensures (State(), sent) == PublishDiscovery(old(State()), d, nbirthOk, ok)
      ensures succeeded == (BirthReady(old(State()), nbirthOk) && ok)
    {
      sent := [];
      var wasPublished := nbirthPublished;
      nbirthPublished := true;
      if !wasPublished {
        sent := [NodeBirth(nbirthOk)];
        if !nbirthOk {
          return sent, false;
        }
      }
      discoveries := discoveries[d.device.deviceId := d];
      var n := NextSeq(d.device.deviceId);
      sent := sent + [DeviceBirth(d, n, ok)];
      succeeded := ok;
    }

    method Publish(device: string, ok: bool) returns (sent: seq<Attempt>, succeeded: bool)
      modifies this
      ensures (State(), sent) == PublishState(old(State()), device, ok)
      ensures succeeded == ok
    {
      var n := NextSeq(device);
      sent := [DeviceData(device, n, ok)];
      succeeded := ok;
    }

    /**
     * One rebirth: the node birth, then every stored discovery again with sequence number 0, in the
     * order the snapshot is walked. The counters are not touched.
     */
    method Rebirth(order: seq<string>, nbirthOk: bool, outcomes: seq<bool>) returns (sent: seq<Attempt>)
      requires |outcomes| == |order| && Walks(order, discoveries)
      ensures sent == RebirthSent(discoveries, order, nbirthOk, outcomes)
    {
      sent := [NodeBirth(nbirthOk)];
      if !nbirthOk {
        return;
      }
      for k := 0 to |order|
        invariant sent == [NodeBirth(true)] + Births(discoveries, order, outcomes)[..k]
      {
        sent := sent + [DeviceBirth(discoveries[order[k]], 0, outcomes[k])];
      }
    }
  }

  // ---- Node births over whole runs ----

  /** One call on the adapter: a discovery or a state to publish, with the outcome of each publish. */
  datatype Call =
    | DiscoveryCall(discovery: Discovery, nbirthOk: bool, ok: bool)
    | StateCall(device: string, ok: bool)

  ghost function AfterCalls(calls: seq<Call>): (PublisherState, seq<Attempt>) {
    if calls == [] then (FRESH, [])
    else
      var (p, trace) := AfterCalls(calls[..|calls| - 1]);
      var (p', sent) := match calls[|calls| - 1]
        case DiscoveryCall(d, nbirthOk, ok) => PublishDiscovery(p, d, nbirthOk, ok)
        case StateCall(device, ok) => PublishState(p, device, ok);
      (p', trace + sent)
  }

  /** The outcome of the node birth that the first announcement tries. */
  function FirstNodeBirth(calls: seq<Call>): Option<bool> {
    if calls == [] then None
    else
      var before := FirstNodeBirth(calls[..|calls| - 1]);
      if before.Some? then before
      else match calls[|calls| - 1]
        case DiscoveryCall(_, nbirthOk, _) => Some(nbirthOk)
        case StateCall(_, _) => None
  }

  ghost predicate Opened(trace: seq<Attempt>, at: nat, ok: bool) {
    && at < |trace| && trace[at] == NodeBirth(ok)
    && (forall i :: 0 <= i < |trace| && trace[i].NodeBirth? ==> i == at)
    && (forall i :: 0 <= i < |trace| && trace[i].DeviceBirth? ==> at < i)
  }

  ghost predicate OpenedOnce(trace: seq<Attempt>, ok: bool) {
    exists at :: Opened(trace, at, ok)
  }

  ghost predicate Unopened(trace: seq<Attempt>) {
    forall i :: 0 <= i < |trace| ==> trace[i].DeviceData?
  }

  /** At most one node birth is ever tried, by the first announcement, before any device birth. */
  lemma {:induction false} NodeBirthTriedOnce(calls: seq<Call>)
    ensures var (p, trace) := AfterCalls(calls);
      match FirstNodeBirth(calls)
      case None => !p.nbirthPublished && Unopened(trace)
      case Some(ok) => p.nbirthPublished && OpenedOnce(trace, ok)
  {
    if calls != [] {
      var before := calls[..|calls| - 1];
      NodeBirthTriedOnce(before);
      var (p, trace) := AfterCalls(before);
      match FirstNodeBirth(before)
      case None =>
        if calls[|calls| - 1].DiscoveryCall? {
          var ok := calls[|calls| - 1].nbirthOk;
          assert FirstNodeBirth(calls) == Some(ok);
          assert Opened(AfterCalls(calls).1, |trace|, ok);
        }
      case Some(ok) =>
        var at :| Opened(trace, at, ok);
        assert FirstNodeBirth(calls) == Some(ok);
        assert Opened(AfterCalls(calls).1, at, ok);
    }
  }

  /** Every device birth comes after a node birth that was published. */
  ghost predicate BornFirst(trace: seq<Attempt>) {
    forall j :: 0 <= j < |trace| && trace[j].DeviceBirth? ==> exists i :: 0 <= i < j && trace[i] == NodeBirth(true)
  }

  ghost predicate NoDeviceBirth(trace: seq<Attempt>) {
    forall j :: 0 <= j < |trace| ==> !trace[j].DeviceBirth?
  }

  function Announcements(calls: seq<Call>): nat {
    if calls == [] then 0
    else Announcements(calls[..|calls| - 1]) + if calls[|calls| - 1].DiscoveryCall? then 1 else 0
  }

  /** After a failed first node birth only that first announcement goes without a device birth. */
  lemma {:induction false} FailedNodeBirth(calls: seq<Call>)
    ensures FirstNodeBirth(calls).None? <==> Announcements(calls) == 0
    ensures FirstNodeBirth(calls) == Some(false) ==>
      (NoDeviceBirth(AfterCalls(calls).1) <==> Announcements(calls) == 1)
  {
    if calls != [] {
      var before := calls[..|calls| - 1];
      var (p, trace) := AfterCalls(before);
      var sent := AfterCalls(calls).1[|trace|..];
      FailedNodeBirth(before);
      NodeBirthTriedOnce(before);
      assert AfterCalls(calls).1 == trace + sent;
      assert NoDeviceBirth(trace + sent) <==> NoDeviceBirth(trace) && NoDeviceBirth(sent) by {
        assert forall a :: a in trace + sent <==> a in trace || a in sent;
      }
      if FirstNodeBirth(before) == Some(false) && calls[|calls| - 1].DiscoveryCall? {
        assert sent[|sent| - 1].DeviceBirth?;
      }
    }
  }

  /**
   * Every device birth comes after a published node birth exactly when the one node birth that is
   * tried succeeds, or there is at most one announcement: after a failure it is not tried again.
   */
  lemma NodeBirthFirstExactly(calls: seq<Call>)
    ensures BornFirst(AfterCalls(calls).1) <==> FirstNodeBirth(calls) == Some(true) || Announcements(calls) <= 1
  {
    NodeBirthTriedOnce(calls);
    FailedNodeBirth(calls);
    var trace := AfterCalls(calls).1;
    if FirstNodeBirth(calls).Some? {
      var at :| Opened(trace, at, FirstNodeBirth(calls).value);
      assert forall i :: 0 <= i < |trace| && trace[i] == NodeBirth(true) ==> FirstNodeBirth(calls).value;
    }
  }

  // ---- What is published and stored over whole runs ----

  /** The first announcement, with a node birth that fails: nothing else comes of this call. */
  predicate Stopped(before: seq<Call>, c: Call) {
    c.DiscoveryCall? && Announcements(before) == 0 && !c.nbirthOk
  }

  /** The numbers a device has taken: one for each of its reports and its announcements that were not stopped. */
  function Taken(calls: seq<Call>, device: string): nat {
    if calls == [] then 0
    else
      var before, c := calls[..|calls| - 1], calls[|calls| - 1];
      var mine := match c
        case DiscoveryCall(d, _, _) => d.device.deviceId == device && !Stopped(before, c)
        case StateCall(d, _) => d == device;
      Taken(before, device) + if mine then 1 else 0
  }

  /** The last announcement of a device that was not stopped, whether or not it was published. */
  function LastAnnounced(calls: seq<Call>, device: string): Option<Discovery> {
    if calls == [] then None
    else
      var before, c := calls[..|calls| - 1], calls[|calls| - 1];
      if c.DiscoveryCall? && c.discovery.device.deviceId == device && !Stopped(before, c) then Some(c.discovery)
      else LastAnnounced(before, device)
  }

  /** The publishes of a run, read off its calls alone: nothing counts but which calls there were. */
  function Publishes(calls: seq<Call>): seq<Attempt> {
    if calls == [] then []
    else
      var before, c := calls[..|calls| - 1], calls[|calls| - 1];
      Publishes(before) + match c
        case StateCall(device, ok) => [DeviceData(device, Taken(before, device) % 256, ok)]
        case DiscoveryCall(d, nbirthOk, ok) =>
          (if Announcements(before) == 0 then [NodeBirth(nbirthOk)] else [])
          + (if Stopped(before, c) then [] else [DeviceBirth(d, Taken(before, d.device.deviceId) % 256, ok)])
  }

  lemma AdvancedBy(sequence: map<string, nat>, taker: string, device: string, taken: nat)
    requires Current(sequence, device) == taken % 256
    ensures Current(Advance(sequence, taker), device) == (if taker == device then taken + 1 else taken) % 256
  {
  }

  lemma {:induction false} PublishedOnce(calls: seq<Call>)
    ensures AfterCalls(calls).0.nbirthPublished <==> Announcements(calls) > 0
  {
    if calls != [] {
      PublishedOnce(calls[..|calls| - 1]);
    }
  }

  lemma {:induction false} CountersExactly(calls: seq<Call>, device: string)
    ensures Current(AfterCalls(calls).0.sequence, device) == Taken(calls, device) % 256
  {
    if calls != [] {
      var before, c := calls[..|calls| - 1], calls[|calls| - 1];
      CountersExactly(before, device);
      PublishedOnce(before);
      AdvancedBy(AfterCalls(before).0.sequence, if c.StateCall? then c.device else c.discovery.device.deviceId, device,
                 Taken(before, device));
    }
  }

  /** In every run exactly these publishes are made, in this order. */
  lemma {:induction false} PublishedExactly(calls: seq<Call>)
    ensures AfterCalls(calls).1 == Publishes(calls)
  {
    if calls != [] {
      var before := calls[..|calls| - 1];
      PublishedExactly(before);
      PublishedOnce(before);
      match calls[|calls| - 1]
      case DiscoveryCall(d, _, _) => CountersExactly(before, d.device.deviceId);
      case StateCall(device, _) => CountersExactly(before, device);
    }
  }

  /** In every run the stored discovery of each device is the last one announced for it. */
  lemma {:induction false} StoredExactly(calls: seq<Call>, device: string)
    ensures var stored := AfterCalls(calls).0.discoveries;
      LastAnnounced(calls, device) == if device in stored then Some(stored[device]) else None
  {
    if calls != [] {
      StoredExactly(calls[..|calls| - 1], device);
      PublishedOnce(calls[..|calls| - 1]);
    }
  }

  /** The birth of `device` stands at one place and at no other. */
  ghost predicate BornOnce(births: seq<Attempt>, device: string, d: Discovery) {
    exists i :: 0 <= i < |births| && births[i].DeviceBirth? && births[i].discovery == d && births[i].seqNo == 0
      && (forall j :: 0 <= j < |births| && births[j].DeviceBirth? && births[j].discovery.device.deviceId == device ==>
            j == i)
  }

  lemma {:induction false} AnnouncedIsOwn(calls: seq<Call>, device: string)
    ensures match LastAnnounced(calls, device)
      case Some(d) => d.device.deviceId == device
      case None => true
  {
    if calls != [] {
      AnnouncedIsOwn(calls[..|calls| - 1], device);
    }
  }

  /** Exactly the announced devices are born, each once, as last announced and with number 0. */
  ghost predicate AnnouncesLatest(calls: seq<Call>, order: seq<string>, outcomes: seq<bool>, births: seq<Attempt>)
    requires |outcomes| == |order|
  {
    && |births| == |order|
    && (forall i :: 0 <= i < |births| ==>
          && births[i].DeviceBirth? && births[i].seqNo == 0 && births[i].ok == outcomes[i]
          && LastAnnounced(calls, order[i]) == Some(births[i].discovery))
    && forall device :: match LastAnnounced(calls, device)
         case Some(d) => BornOnce(births, device, d)
         case None => device !in order
  }

  lemma BirthsAnnounceLatest(calls: seq<Call>, order: seq<string>, outcomes: seq<bool>)
    requires |outcomes| == |order| && Walks(order, AfterCalls(calls).0.discoveries)
    ensures AnnouncesLatest(calls, order, outcomes, Births(AfterCalls(calls).0.discoveries, order, outcomes))
  {
    var stored := AfterCalls(calls).0.discoveries;
    var births := Births(stored, order, outcomes);
    forall i | 0 <= i < |order|
      ensures LastAnnounced(calls, order[i]) == Some(births[i].discovery)
      ensures births[i].discovery.device.deviceId == order[i]
    {
      StoredExactly(calls, order[i]);
      AnnouncedIsOwn(calls, order[i]);
    }
    forall device
      ensures match LastAnnounced(calls, device)
        case Some(d) => BornOnce(births, device, d)
        case None => device !in order
    {
      StoredExactly(calls, device);
      if device in order {
        var i :| 0 <= i < |order| && order[i] == device;
        assert births[i] == DeviceBirth(stored[device], 0, outcomes[i]);
      }
    }
  }

  /**
   * After any run a rebirth tries the node birth and, unless that fails, births every device that was
   * announced exactly once, as it was last announced and with number 0, and nothing else.
   */
  lemma RebirthAnnouncesLatest(calls: seq<Call>, order: seq<string>, nbirthOk: bool, outcomes: seq<bool>)
    requires |outcomes| == |order| && Walks(order, AfterCalls(calls).0.discoveries)
    ensures var sent := RebirthSent(AfterCalls(calls).0.discoveries, order, nbirthOk, outcomes);
      && sent[0] == NodeBirth(nbirthOk)
      && if nbirthOk then AnnouncesLatest(calls, order, outcomes, sent[1..]) else |sent| == 1
  {
    var stored := AfterCalls(calls).0.discoveries;
    BirthsAnnounceLatest(calls, order, outcomes);
    assert nbirthOk ==> RebirthSent(stored, order, nbirthOk, outcomes)[1..] == Births(stored, order, outcomes);
  }
}
