/** The logger's status registry: tracked devices, and the device each discovery key belongs to. */
module StatusRegistry {
  import opened Wrappers
  import opened Contracts
  import opened DiscoveryEvents
  import opened Runs
  import opened Text
  import opened Topics

  datatype Tracked = Tracked(adapter: string, nodeId: string, deviceId: string, capabilities: set<string>,
                             keys: set<string>, stateSource: string, availability: Option<string>)

  datatype Status = Status(devices: map<string, Tracked>, deviceOf: map<string, string>)

  const EMPTY: Status := Status(map[], map[])

  function Canonical(node: string, device: string): string {
    node + "/" + device
  }

  function IdOf(d: Discovery): string {
    Canonical(d.device.serviceId, d.device.deviceId)
  }

  function StateSource(mode: string, node: string, device: string): string {
    if mode == "mqtt-sparkplug-b" then "spBv1.0/<group>/DDATA/" + node + "/" + device
    else "hs/state/" + node + "/" + device + "/+"
  }

  function Ids(d: Discovery): set<string> {
    set c | c in d.capabilities :: c.id
  }

  function Prune(devices: map<string, Tracked>, id: string, key: string): map<string, Tracked> {
    if id !in devices then devices
    else
      var rest := devices[id].keys - {key};
      if rest == {} then devices - {id} else devices[id := devices[id].(keys := rest)]
  }

  /** The entry a discovery leaves behind, from the entry that was there or a new one. */
  function Refreshed(mode: string, devices: map<string, Tracked>, key: string, d: Discovery): Tracked {
    var node, device := d.device.serviceId, d.device.deviceId;
    var entry := if IdOf(d) in devices then devices[IdOf(d)]
                 else Tracked(mode, node, device, {}, {}, StateSource(mode, node, device), d.availabilityTopic);
    entry.(availability := if entry.availability.None? || d.availabilityTopic.Some? then d.availabilityTopic
                           else entry.availability,
           capabilities := entry.capabilities + Ids(d),
           keys := entry.keys + {key})
  }

  function Process(mode: string, s: Status, e: Event): Status {
    match e
    case Withdrawn(key) =>
      if key !in s.deviceOf then s else Status(Prune(s.devices, s.deviceOf[key], key), s.deviceOf - {key})
    case Discovered(key, d) =>
      var devices := if key in s.deviceOf && s.deviceOf[key] != IdOf(d) then Prune(s.devices, s.deviceOf[key], key)
                     else s.devices;
      Status(devices[IdOf(d) := Refreshed(mode, devices, key, d)], s.deviceOf[key := IdOf(d)])
  }

  class LoggerStatus {
    const mode: string
    const subscriptions: seq<string>
    var trackedDevices: map<string, Tracked>
    var discoveryToDevice: map<string, string>

    function State(): Status
      reads this
    {
      Status(trackedDevices, discoveryToDevice)
    }

    constructor (mode: string, subscriptions: seq<string>)
      ensures this.mode == mode && this.subscriptions == subscriptions && State() == EMPTY
    {
      this.mode, this.subscriptions := mode, subscriptions;
      trackedDevices, discoveryToDevice := map[], map[];
    }

    method PruneDiscoveryKey(id: string, key: string)
      modifies this`trackedDevices
      ensures trackedDevices == Prune(old(trackedDevices), id, key)
    {
      if id in trackedDevices {
        var device := trackedDevices[id];
        device := device.(keys := device.keys - {key});
        if device.keys == {} {
          trackedDevices := trackedDevices - {id};
        } else {
          trackedDevices := trackedDevices[id := device];
        }
      }
    }

    method OnDiscovery(key: string, event: Discovery)
      modifies this
      ensures State() == Process(mode, old(State()), Discovered(key, event))
    {
      var node, device := event.device.serviceId, event.device.deviceId;
      var canonicalId := Canonical(node, device);
      var previous := if key in discoveryToDevice then Some(discoveryToDevice[key]) else None;
      discoveryToDevice := discoveryToDevice[key := canonicalId];
      if previous.Some? && previous.value != canonicalId {
        PruneDiscoveryKey(previous.value, key);
      }
      var entry: Tracked;
      if canonicalId in trackedDevices {
        entry := trackedDevices[canonicalId];
      } else {
        entry := Tracked(mode, node, device, {}, {}, StateSource(mode, node, device), event.availabilityTopic);
      }
      if entry.availability.None? || event.availabilityTopic.Some? {
        entry := entry.(availability := event.availabilityTopic);
      }
      entry := entry.(capabilities := entry.capabilities + Ids(event), keys := entry.keys + {key});
      trackedDevices := trackedDevices[canonicalId := entry];
    }

    method OnTombstone(key: string)
      modifies this
      ensures State() == Process(mode, old(State()), Withdrawn(key))
    {
      if key in discoveryToDevice {
        var id := discoveryToDevice[key];
        discoveryToDevice := discoveryToDevice - {key};
        PruneDiscoveryKey(id, key);
      }
    }

    /**
     * The subscriptions a snapshot shows, walking the devices in `order`: the configured ones, then
     * each availability topic of a tracked device once.
     */
    method ShownSubscriptions(order: seq<string>) returns (shown: seq<string>)
      requires forall id :: id in order <==> id in trackedDevices
      ensures subscriptions <= shown
      ensures var added := shown[|subscriptions|..];
        && (forall i, j :: 0 <= i < j < |added| ==> added[i] != added[j])
        && (forall topic :: topic in added <==> Shows(trackedDevices, topic))
    {
      var added: seq<string> := [];
      for n := 0 to |order|
        invariant forall i, j :: 0 <= i < j < |added| ==> added[i] != added[j]
        invariant forall topic :: topic in added <==>
          exists i :: 0 <= i < n && trackedDevices[order[i]].availability == Some(topic)
      {
        assert order[n] in order;
        var topic := trackedDevices[order[n]].availability;
        if topic.Some? && topic.value !in added {
          added := added + [topic.value];
        }
      }
      forall topic
        ensures topic in added <==> Shows(trackedDevices, topic)
      {
        if Shows(trackedDevices, topic) {
          var id :| id in trackedDevices && trackedDevices[id].availability == Some(topic);
          assert id in order;
        }
      }
      shown := subscriptions + added;
      assert shown[|subscriptions|..] == added;
    }
  }

  // ---- Runs ----

  ghost function Run(mode: string, events: seq<Event>): Status {
    if events == [] then EMPTY
    else Process(mode, Run(mode, events[..|events| - 1]), events[|events| - 1])
  }

  ghost function Live(events: seq<Event>): map<string, Discovery> {
    Latest(events, true)
  }

  ghost function KeysAt(deviceOf: map<string, string>, id: string): set<string> {
    set k | k in deviceOf && deviceOf[k] == id
  }

  ghost predicate Indexed(s: Status) {
    && (forall id :: id in s.devices ==> s.devices[id].keys == KeysAt(s.deviceOf, id) && s.devices[id].keys != {})
    && (forall k :: k in s.deviceOf ==> s.deviceOf[k] in s.devices)
  }

  lemma PruneIndexed(s: Status, key: string)
    requires Indexed(s) && key in s.deviceOf
    ensures Indexed(Status(Prune(s.devices, s.deviceOf[key], key), s.deviceOf - {key}))
  {
    var id := s.deviceOf[key];
    var s' := Status(Prune(s.devices, id, key), s.deviceOf - {key});
    forall k | k in s'.deviceOf
      ensures s'.deviceOf[k] in s'.devices
    {
      if s.deviceOf[k] == id {
        assert k in s.devices[id].keys;
        assert k in s.devices[id].keys - {key};
      }
    }
    forall other | other in s'.devices
      ensures s'.devices[other].keys == KeysAt(s'.deviceOf, other) && s'.devices[other].keys != {}
    {
      assert s.devices[other].keys == KeysAt(s.deviceOf, other);
      assert KeysAt(s'.deviceOf, other) == KeysAt(s.deviceOf, other) - {key};
    }
  }

  lemma AddIndexed(mode: string, s: Status, key: string, d: Discovery)
    requires Indexed(s) && (key in s.deviceOf ==> s.deviceOf[key] == IdOf(d))
    ensures Indexed(Status(s.devices[IdOf(d) := Refreshed(mode, s.devices, key, d)], s.deviceOf[key := IdOf(d)]))
  {
    var s' := Status(s.devices[IdOf(d) := Refreshed(mode, s.devices, key, d)], s.deviceOf[key := IdOf(d)]);
    forall id | id in s'.devices
      ensures s'.devices[id].keys == KeysAt(s'.deviceOf, id) && s'.devices[id].keys != {}
    {
      assert KeysAt(s'.deviceOf, id) == KeysAt(s.deviceOf, id) + if id == IdOf(d) then {key} else {};
      if id !in s.devices {
        assert KeysAt(s.deviceOf, id) == {};
      }
    }
  }

  lemma StepIndexed(mode: string, s: Status, e: Event)
    requires Indexed(s)
    ensures Indexed(Process(mode, s, e))
  {
    match e
    case Withdrawn(key) => if key in s.deviceOf { PruneIndexed(s, key); }
    case Discovered(key, d) =>
      if key in s.deviceOf && s.deviceOf[key] != IdOf(d) {
        PruneIndexed(s, key);
        var s1 := Status(Prune(s.devices, s.deviceOf[key], key), s.deviceOf - {key});
        AddIndexed(mode, s1, key, d);
        assert s1.deviceOf[key := IdOf(d)] == s.deviceOf[key := IdOf(d)];
      } else {
        AddIndexed(mode, s, key, d);
      }
  }

  lemma StepMaps(mode: string, s: Status, e: Event, live: map<string, Discovery>)
    requires s.deviceOf == map k | k in live :: IdOf(live[k])
    ensures var live' := Updated(live, e, true);
      Process(mode, s, e).deviceOf == map k | k in live' :: IdOf(live'[k])
  {
  }

  /**
   * In every run the two indexes are inverse: a device's keys are exactly those that map to it, no
   * device is left without a key, and each key maps to the device of its latest discovery.
   */
  lemma {:induction false} IndexesInverse(mode: string, events: seq<Event>)
    ensures var s := Run(mode, events);
      && Indexed(s)
      && s.deviceOf == map k | k in Live(events) :: IdOf(Live(events)[k])
  {
    if events != [] {
      var before, e := events[..|events| - 1], events[|events| - 1];
      IndexesInverse(mode, before);
      StepIndexed(mode, Run(mode, before), e);
      StepMaps(mode, Run(mode, before), e, Live(before));
    }
  }

  /** Everything a live discovery announces is counted at its device. */
  ghost predicate Covers(s: Status, live: map<string, Discovery>) {
    forall k :: k in live ==> IdOf(live[k]) in s.devices && Ids(live[k]) <= s.devices[IdOf(live[k])].capabilities
  }

  ghost predicate MapsLive(s: Status, live: map<string, Discovery>) {
    s.deviceOf.Keys == live.Keys && forall k :: k in live ==> s.deviceOf[k] == IdOf(live[k])
  }

  lemma PruneCovers(s: Status, live: map<string, Discovery>, key: string)
    requires Indexed(s) && MapsLive(s, live) && Covers(s, live) && key in live
    ensures Covers(Status(Prune(s.devices, s.deviceOf[key], key), s.deviceOf - {key}), live - {key})
  {
    PruneIndexed(s, key);
    var s' := Status(Prune(s.devices, s.deviceOf[key], key), s.deviceOf - {key});
    forall k | k in live - {key}
      ensures IdOf(live[k]) in s'.devices && Ids(live[k]) <= s'.devices[IdOf(live[k])].capabilities
    {
      assert s'.deviceOf[k] == IdOf(live[k]);
    }
  }

  lemma AddCovers(mode: string, s: Status, live: map<string, Discovery>, key: string, d: Discovery)
    requires Covers(s, live)
    ensures Covers(Status(s.devices[IdOf(d) := Refreshed(mode, s.devices, key, d)], s.deviceOf[key := IdOf(d)]),
                   live[key := d])
  {
  }

  lemma StepCovers(mode: string, s: Status, live: map<string, Discovery>, e: Event)
    requires Indexed(s) && MapsLive(s, live) && Covers(s, live)
    ensures Covers(Process(mode, s, e), Updated(live, e, true))
  {
    if e.key in live {
      PruneCovers(s, live, e.key);
    }
    if e.Discovered? {
      if e.key in live && s.deviceOf[e.key] != IdOf(e.discovery) {
        var s1 := Status(Prune(s.devices, s.deviceOf[e.key], e.key), s.deviceOf - {e.key});
        AddCovers(mode, s1, live - {e.key}, e.key, e.discovery);
        assert (live - {e.key})[e.key := e.discovery] == live[e.key := e.discovery];
      } else {
        AddCovers(mode, s, live, e.key, e.discovery);
      }
    }
  }

  /** In every run each live discovery has an entry that counts all the capabilities it announced. */
  lemma {:induction false} CapabilitiesCovered(mode: string, events: seq<Event>)
    ensures Covers(Run(mode, events), Live(events))
  {
    if events != [] {
      var before := events[..|events| - 1];
      CapabilitiesCovered(mode, before);
      IndexesInverse(mode, before);
      StepCovers(mode, Run(mode, before), Live(before), events[|events| - 1]);
    }
  }

  /** Some live key belongs to this entry. */
  ghost predicate Occupied(live: map<string, Discovery>, id: string) {
    exists k :: k in live && IdOf(live[k]) == id
  }

  /** What was announced for an entry since it was last without a key. */
  ghost function AnnouncedSince(events: seq<Event>, id: string): set<string> {
    if events == [] || !Occupied(Live(events), id) then {}
    else
      var e := events[|events| - 1];
      AnnouncedSince(events[..|events| - 1], id)
      + if e.Discovered? && IdOf(e.discovery) == id then Ids(e.discovery) else {}
  }

  lemma TrackedIsOccupied(mode: string, events: seq<Event>, id: string)
    ensures id in Run(mode, events).devices <==> Occupied(Live(events), id)
  {
    IndexesInverse(mode, events);
    var s := Run(mode, events);
    if id in s.devices {
      var k :| k in s.devices[id].keys;
      assert k in Live(events) && IdOf(Live(events)[k]) == id;
    }
    if Occupied(Live(events), id) {
      var k :| k in Live(events) && IdOf(Live(events)[k]) == id;
      assert s.deviceOf[k] == id;
    }
  }

  /** What one event does to the capabilities an entry shows. */
  lemma StepCapabilities(mode: string, s: Status, e: Event, id: string)
    requires id in Process(mode, s, e).devices
    ensures Process(mode, s, e).devices[id].capabilities
         == (if id in s.devices then s.devices[id].capabilities else {})
            + if e.Discovered? && IdOf(e.discovery) == id then Ids(e.discovery) else {}
  {
  }

  /** In every run an entry counts exactly what was announced for it since it was last without a key. */
  lemma {:induction false} CapabilitiesExactly(mode: string, events: seq<Event>, id: string)
    ensures id in Run(mode, events).devices <==> Occupied(Live(events), id)
    ensures id in Run(mode, events).devices ==> Run(mode, events).devices[id].capabilities == AnnouncedSince(events, id)
  {
    TrackedIsOccupied(mode, events, id);
    if events != [] && id in Run(mode, events).devices {
      var before := events[..|events| - 1];
      CapabilitiesExactly(mode, before, id);
      StepCapabilities(mode, Run(mode, before), events[|events| - 1], id);
    }
  }

  /** Event `n` announces capability `c` for an entry that has had a key ever since. */
  ghost predicate AnnouncedAt(events: seq<Event>, n: nat, id: string, c: string) {
    && n < |events| && events[n].Discovered?
    && events[n].discovery.device.serviceId + "/" + events[n].discovery.device.deviceId == id
    && (exists i :: 0 <= i < |events[n].discovery.capabilities| && events[n].discovery.capabilities[i].id == c)
    && (forall m :: n < m <= |events| ==> Occupied(Live(events[..m]), id))
  }

  lemma AnnouncedOneMore(events: seq<Event>, n: nat, id: string, c: string)
    requires |events| > 0
    ensures var before := events[..|events| - 1];
      AnnouncedAt(events, n, id, c)
      <==> && Occupied(Live(events), id)
           && if n == |before| then events[n].Discovered? && IdOf(events[n].discovery) == id
                                    && c in Ids(events[n].discovery)
              else AnnouncedAt(before, n, id, c)
  {
    var before := events[..|events| - 1];
    assert events[..|events|] == events;
    assert forall m :: 0 <= m <= |before| ==> events[..m] == before[..m];
  }

  lemma {:induction false} SinceIsAnnounced(events: seq<Event>, id: string, c: string)
    ensures c in AnnouncedSince(events, id) <==> exists n :: AnnouncedAt(events, n, id, c)
  {
    if events != [] {
      var before := events[..|events| - 1];
      SinceIsAnnounced(before, id, c);
      forall n: nat
        ensures AnnouncedAt(events, n, id, c)
           <==> && Occupied(Live(events), id)
                && if n == |before| then events[n].Discovered? && IdOf(events[n].discovery) == id
                                         && c in Ids(events[n].discovery)
                   else AnnouncedAt(before, n, id, c)
      {
        AnnouncedOneMore(events, n, id, c);
      }
    }
  }

  /**
   * In every run an entry counts a capability exactly when some event announced it for that entry, which
   * has had a key ever since.
   */
  lemma CountedExactly(mode: string, events: seq<Event>, id: string, c: string)
    requires id in Run(mode, events).devices
    ensures c in Run(mode, events).devices[id].capabilities <==> exists n :: AnnouncedAt(events, n, id, c)
  {
    CapabilitiesExactly(mode, events, id);
    SinceIsAnnounced(events, id, c);
  }

  /** What the live discoveries of an entry announce. */
  ghost function LiveCapabilities(live: map<string, Discovery>, id: string): set<string> {
    set k, c | k in live && IdOf(live[k]) == id && c in Ids(live[k]) :: c
  }

  /** The status page counts exactly the live capabilities, at every entry. */
  ghost predicate Current(mode: string, events: seq<Event>, n: nat)
    requires n <= |events|
  {
    var s := Run(mode, events[..n]);
    forall id :: id in s.devices ==> s.devices[id].capabilities == LiveCapabilities(Live(events[..n]), id)
  }

  /** The event takes no capability from an entry that stays. */
  ghost predicate KeepsCapabilities(live: map<string, Discovery>, e: Event) {
    e.key in live && Occupied(Updated(live, e, true), IdOf(live[e.key])) ==>
      Ids(live[e.key]) <= LiveCapabilities(Updated(live, e, true), IdOf(live[e.key]))
  }

  /** The live capabilities of an entry after an event, from those before. */
  lemma LiveCapabilitiesStep(live: map<string, Discovery>, e: Event, id: string)
    ensures var was := if e.key in live && IdOf(live[e.key]) == id then Ids(live[e.key]) else {};
      var now := if e.Discovered? && IdOf(e.discovery) == id then Ids(e.discovery) else {};
      LiveCapabilities(Updated(live, e, true), id) + was == LiveCapabilities(live, id) + now
  {
    var live' := Updated(live, e, true);
    var was := if e.key in live && IdOf(live[e.key]) == id then Ids(live[e.key]) else {};
    var now := if e.Discovered? && IdOf(e.discovery) == id then Ids(e.discovery) else {};
    forall c
      ensures c in LiveCapabilities(live', id) + was <==> c in LiveCapabilities(live, id) + now
    {
      if c in LiveCapabilities(live', id) {
        var k :| k in live' && IdOf(live'[k]) == id && c in Ids(live'[k]);
        assert k != e.key ==> k in live && live[k] == live'[k];
      }
      if c in LiveCapabilities(live, id) {
        var k :| k in live && IdOf(live[k]) == id && c in Ids(live[k]);
        assert k != e.key ==> k in live' && live'[k] == live[k];
      }
      if c in was {
        assert c in LiveCapabilities(live, id);
      }
      if c in now {
        assert e.key in live' && c in LiveCapabilities(live', id);
      }
    }
  }

  lemma UnoccupiedIsBare(live: map<string, Discovery>, id: string)
    requires !Occupied(live, id)
    ensures LiveCapabilities(live, id) == {}
  {
  }

  lemma EntryStaysCurrent(live: map<string, Discovery>, e: Event, id: string, shown: set<string>)
    requires shown == LiveCapabilities(live, id)
    ensures var now := if e.Discovered? && IdOf(e.discovery) == id then Ids(e.discovery) else {};
      shown + now == LiveCapabilities(Updated(live, e, true), id)
      <==> (e.key in live && IdOf(live[e.key]) == id ==>
              Ids(live[e.key]) <= LiveCapabilities(Updated(live, e, true), id))
  {
    LiveCapabilitiesStep(live, e, id);
    if e.key in live && IdOf(live[e.key]) == id {
      assert Ids(live[e.key]) <= LiveCapabilities(live, id);
    }
  }

  lemma CurrentStep(mode: string, events: seq<Event>, n: nat)
    requires n < |events| && Current(mode, events, n)
    ensures Current(mode, events, n + 1) <==> KeepsCapabilities(Live(events[..n]), events[n])
  {
    var s, live, e := Run(mode, events[..n]), Live(events[..n]), events[n];
    assert events[..n + 1][..n] == events[..n];
    var s' := Run(mode, events[..n + 1]);
    assert s' == Process(mode, s, e) && Live(events[..n + 1]) == Updated(live, e, true);
    forall id | id in s'.devices
      ensures s'.devices[id].capabilities == LiveCapabilities(Updated(live, e, true), id)
         <==> (e.key in live && IdOf(live[e.key]) == id ==>
                 Ids(live[e.key]) <= LiveCapabilities(Updated(live, e, true), id))
    {
      StepCapabilities(mode, s, e, id);
      if id !in s.devices {
        TrackedIsOccupied(mode, events[..n], id);
        UnoccupiedIsBare(live, id);
      }
      EntryStaysCurrent(live, e, id, LiveCapabilities(live, id));
    }
    if e.key in live {
      TrackedIsOccupied(mode, events[..n + 1], IdOf(live[e.key]));
    }
  }

  ghost predicate KeepsUpTo(events: seq<Event>, n: nat)
    requires n <= |events|
  {
    forall i :: 0 <= i < n ==> KeepsCapabilities(Live(events[..i]), events[i])
  }

  /**
   * The page counts exactly the live capabilities at every point of a run, exactly when no event takes
   * a capability from an entry that stays: such a capability is never uncounted.
   */
  lemma CapabilitiesCurrentExactly(mode: string, events: seq<Event>)
    ensures (forall n :: 0 <= n <= |events| ==> Current(mode, events, n))
       <==> (forall i :: 0 <= i < |events| ==> KeepsCapabilities(Live(events[..i]), events[i]))
  {
    var follows := (n: nat) => n <= |events| && Current(mode, events, n);
    var clean := (n: nat) => n <= |events| && KeepsUpTo(events, n);
    forall n: nat | n < |events| && clean(n) && follows(n)
      ensures follows(n + 1) <==> clean(n + 1)
    {
      CurrentStep(mode, events, n);
    }
    UpTo(follows, clean, |events|);
    assert forall n :: 0 <= n <= |events| ==> (follows(n) <==> Current(mode, events, n));
  }

  /** The availability topic last announced for an entry since it was last without a key. */
  ghost function TopicSince(events: seq<Event>, id: string): Option<string> {
    if events == [] || !Occupied(Live(events), id) then None
    else
      var e := events[|events| - 1];
      if e.Discovered? && IdOf(e.discovery) == id && e.discovery.availabilityTopic.Some?
      then e.discovery.availabilityTopic else TopicSince(events[..|events| - 1], id)
  }

  /** What one event does to the availability topic an entry shows. */
  lemma StepTopic(mode: string, s: Status, e: Event, id: string)
    requires id in Process(mode, s, e).devices
    ensures Process(mode, s, e).devices[id].availability
         == if e.Discovered? && IdOf(e.discovery) == id && e.discovery.availabilityTopic.Some?
            then e.discovery.availabilityTopic
            else if id in s.devices then s.devices[id].availability else None
  {
  }

  /**
   * In every run an entry shows the availability topic last announced for it since it was last without
   * a key, also when the key that announced it has left.
   */
  lemma {:induction false} AvailabilityExactly(mode: string, events: seq<Event>, id: string)
    requires id in Run(mode, events).devices
    ensures Run(mode, events).devices[id].availability == TopicSince(events, id)
  {
    TrackedIsOccupied(mode, events, id);
    if events != [] {
      var before := events[..|events| - 1];
      StepTopic(mode, Run(mode, before), events[|events| - 1], id);
      if id in Run(mode, before).devices {
        AvailabilityExactly(mode, before, id);
      } else {
        TrackedIsOccupied(mode, before, id);
      }
    }
  }

  /** Some tracked device shows this availability topic. */
  ghost predicate Shows(devices: map<string, Tracked>, topic: string) {
    exists id :: id in devices && devices[id].availability == Some(topic)
  }

  /**
   * In every run the availability topics a snapshot shows are those last announced for some entry with
   * a live key.
   */
  lemma ShownExactly(mode: string, events: seq<Event>, topic: string)
    ensures Shows(Run(mode, events).devices, topic)
       <==> exists id :: Occupied(Live(events), id) && TopicSince(events, id) == Some(topic)
  {
    var devices := Run(mode, events).devices;
    forall id
      ensures id in devices <==> Occupied(Live(events), id)
      ensures id in devices ==> devices[id].availability == TopicSince(events, id)
    {
      TrackedIsOccupied(mode, events, id);
      if id in devices {
        AvailabilityExactly(mode, events, id);
      }
    }
  }

  /**
   * Two nodes can have devices that share an entry exactly when one node id, followed by a slash, is a
   * prefix of the other.
   */
  lemma EntriesSharedExactly(n1: string, n2: string)
    requires n1 != n2
    ensures (exists d1, d2 :: Canonical(n1, d1) == Canonical(n2, d2)) <==> n1 + "/" <= n2 || n2 + "/" <= n1
  {
    if d1, d2 :| Canonical(n1, d1) == Canonical(n2, d2) {
      var c := Canonical(n1, d1);
      assert c[..|n1|] == n1 && c[..|n2|] == n2 && c[|n1|] == '/' == c[|n2|];
      if |n1| < |n2| {
        assert c[..|n1| + 1] == n1 + "/";
      } else if |n2| < |n1| {
        assert c[..|n2| + 1] == n2 + "/";
      }
    }
    if n1 + "/" <= n2 {
      assert Canonical(n1, n2[|n1| + 1..] + "/") == Canonical(n2, "");
    }
    if n2 + "/" <= n1 {
      assert Canonical(n1, "") == Canonical(n2, n1[|n2| + 1..] + "/");
    }
  }

  lemma FreeHasNoSlashPrefix(n: string, m: string)
    requires Free(m, '/')
    ensures !(n + "/" <= m)
  {
    assert (n + "/")[|n|] == '/';
  }

  lemma SlashFreeNodes(n1: string, d1: string, n2: string, d2: string)
    requires Free(n1, '/') && Free(n2, '/') && Canonical(n1, d1) == Canonical(n2, d2)
    ensures n1 == n2 && d1 == d2
  {
    FreeHasNoSlashPrefix(n1, n2);
    FreeHasNoSlashPrefix(n2, n1);
    if n1 != n2 {
      EntriesSharedExactly(n1, n2);
    }
    assert d1 == Canonical(n1, d1)[|n1| + 1..];
    assert d2 == Canonical(n2, d2)[|n2| + 1..];
  }

  ghost predicate SlashFree(events: seq<Event>) {
    forall i :: 0 <= i < |events| && events[i].Discovered? ==> Free(events[i].discovery.device.serviceId, '/')
  }

  ghost predicate Named(s: Status) {
    forall id :: id in s.devices ==>
      Canonical(s.devices[id].nodeId, s.devices[id].deviceId) == id && Free(s.devices[id].nodeId, '/')
  }

  lemma {:induction false} EntriesNamed(mode: string, events: seq<Event>)
    requires SlashFree(events)
    ensures Named(Run(mode, events))
    ensures forall k :: k in Live(events) ==> Free(Live(events)[k].device.serviceId, '/')
  {
    if events != [] {
      var before, e := events[..|events| - 1], events[|events| - 1];
      EntriesNamed(mode, before);
      forall k | k in Live(events)
        ensures Free(Live(events)[k].device.serviceId, '/')
      {
        assert k in Live(before) || (e.Discovered? && k == e.key);
      }
    }
  }

  /** With slash-free node ids, the entry of a live key names exactly the node and device that key announced. */
  lemma DevicesNotConfused(mode: string, events: seq<Event>, key: string)
    requires SlashFree(events) && key in Live(events)
    ensures var s := Run(mode, events);
      var d := Live(events)[key].device;
      key in s.deviceOf && s.deviceOf[key] in s.devices
      && s.devices[s.deviceOf[key]].nodeId == d.serviceId && s.devices[s.deviceOf[key]].deviceId == d.deviceId
  {
    EntriesNamed(mode, events);
    IndexesInverse(mode, events);
    var s := Run(mode, events);
    var d := Live(events)[key].device;
    var t := s.devices[s.deviceOf[key]];
    SlashFreeNodes(t.nodeId, t.deviceId, d.serviceId, d.deviceId);
  }

  // ---- State sources ----

  /** One level of a shown source covers a level of a topic; `<group>` stands for any group. */
  predicate LevelCovers(shown: string, level: string) {
    shown == level || shown == "+" || shown == "<group>"
  }

  predicate SourceCovers(source: string, topic: string) {
    var shown, levels := Split(source, '/'), Split(topic, '/');
    |shown| == |levels| && forall i :: 0 <= i < |shown| ==> LevelCovers(shown[i], levels[i])
  }

  ghost predicate EntryFits(mode: string, t: Tracked) {
    t.adapter == mode && t.stateSource == StateSource(mode, t.nodeId, t.deviceId)
  }

  lemma {:induction false} EntriesFit(mode: string, events: seq<Event>)
    ensures forall id :: id in Run(mode, events).devices ==> EntryFits(mode, Run(mode, events).devices[id])
  {
    if events != [] {
      EntriesFit(mode, events[..|events| - 1]);
    }
  }

  lemma SanitizedIsNoWildcard(s: string)
    requires Sanitize(s) == s
    ensures Free(s, '/') && s != "+" && s != "<group>"
  {
    SanitizeClean(s);
    assert s != [] ==> s[0] == SanitizeChar(s[0]);
  }

  lemma LevelByLevel(source: string, topic: string, shown: seq<string>, levels: seq<string>)
    requires Split(source, '/') == shown && Split(topic, '/') == levels && |shown| == |levels| == 5
    ensures SourceCovers(source, topic)
       <==> && LevelCovers(shown[0], levels[0]) && LevelCovers(shown[1], levels[1]) && LevelCovers(shown[2], levels[2])
            && LevelCovers(shown[3], levels[3]) && LevelCovers(shown[4], levels[4])
  {
  }

  lemma DataSourceShape(node: string, device: string)
    ensures StateSource("mqtt-sparkplug-b", node, device)
         == "spBv1.0" + "/" + "<group>" + "/" + "DDATA" + "/" + node + "/" + device
  {
    assert "spBv1.0/<group>/DDATA/" == "spBv1.0" + "/" + "<group>" + "/" + "DDATA" + "/";
  }

  lemma DataSourceCovers(node: string, device: string, group: string, n: string, d: string)
    requires Sanitize(node) == node && Sanitize(device) == device
    ensures SourceCovers(StateSource("mqtt-sparkplug-b", node, device), DeviceTopic("DDATA", group, n, d))
       <==> Sanitize(n) == node && Sanitize(d) == device
  {
    SanitizedIsNoWildcard(node);
    SanitizedIsNoWildcard(device);
    SanitizeClean(group);
    SanitizeClean(n);
    SanitizeClean(d);
    assert Free("spBv1.0", '/') && Free("<group>", '/') && Free("DDATA", '/');
    DataSourceShape(node, device);
    FiveParts("spBv1.0", "<group>", "DDATA", node, device);
    FiveParts("spBv1.0", Sanitize(group), "DDATA", Sanitize(n), Sanitize(d));
    LevelByLevel(StateSource("mqtt-sparkplug-b", node, device), DeviceTopic("DDATA", group, n, d),
                 ["spBv1.0", "<group>", "DDATA", node, device],
                 ["spBv1.0", Sanitize(group), "DDATA", Sanitize(n), Sanitize(d)]);
  }

  lemma StateSourceCovers(mode: string, node: string, device: string, n: string, d: string, c: string)
    requires mode != "mqtt-sparkplug-b" && Sanitize(node) == node && Sanitize(device) == device
    ensures SourceCovers(StateSource(mode, node, device), StateTopic(n, d, c))
       <==> Sanitize(n) == node && Sanitize(d) == device
  {
    SanitizedIsNoWildcard(node);
    SanitizedIsNoWildcard(device);
    SanitizeClean(n);
    SanitizeClean(d);
    SanitizeClean(c);
    assert Free("hs", '/') && Free("state", '/') && Free("+", '/');
    assert StateSource(mode, node, device) == "hs" + "/" + "state" + "/" + node + "/" + device + "/" + "+";
    FiveParts("hs", "state", node, device, "+");
    FiveParts("hs", "state", Sanitize(n), Sanitize(d), Sanitize(c));
    LevelByLevel(StateSource(mode, node, device), StateTopic(n, d, c), ["hs", "state", node, device, "+"],
                 ["hs", "state", Sanitize(n), Sanitize(d), Sanitize(c)]);
  }

  /**
   * In every run an entry shows the adapter that is running and, for ids as they are read off topics, a
   * state source that covers exactly the topics its own device's states arrive on.
   */
  lemma SourceIsOwn(mode: string, events: seq<Event>, id: string, group: string, n: string, d: string, c: string)
    requires id in Run(mode, events).devices
    ensures var t := Run(mode, events).devices[id];
      && t.adapter == mode
      && (Sanitize(t.nodeId) == t.nodeId && Sanitize(t.deviceId) == t.deviceId ==>
            (SourceCovers(t.stateSource, if mode == "mqtt-sparkplug-b" then DeviceTopic("DDATA", group, n, d)
                                         else StateTopic(n, d, c))
             <==> Sanitize(n) == t.nodeId && Sanitize(d) == t.deviceId))
  {
    EntriesFit(mode, events);
    var t := Run(mode, events).devices[id];
    if Sanitize(t.nodeId) == t.nodeId && Sanitize(t.deviceId) == t.deviceId {
      if mode == "mqtt-sparkplug-b" {
        DataSourceCovers(t.nodeId, t.deviceId, group, n, d);
      } else {
        StateSourceCovers(mode, t.nodeId, t.deviceId, n, d, c);
      }
    }
  }
}

/** The event processor that updates the status registry and then the entity index. */
module Tracking {
  import opened Contracts
  import opened DiscoveryEvents
  import opened Runs
  import CoreRegistry
  import StatusRegistry

  class TrackingEventProcessor {
    const inner: CoreRegistry.CoreMetadata
    const status: StatusRegistry.LoggerStatus

    constructor (inner: CoreRegistry.CoreMetadata, status: StatusRegistry.LoggerStatus)
      ensures this.inner == inner && this.status == status
    {
      this.inner, this.status := inner, status;
    }

    method OnDiscovery(key: string, event: Discovery)
      modifies status, inner
      ensures status.State() == StatusRegistry.Process(status.mode, old(status.State()), Discovered(key, event))
      ensures inner.State() == CoreRegistry.Process(old(inner.State()), Discovered(key, event))
    {
      status.OnDiscovery(key, event);
      inner.OnDiscovery(key, event);
    }

    method OnTombstone(key: string)
      modifies status, inner
      ensures status.State() == StatusRegistry.Process(status.mode, old(status.State()), Withdrawn(key))
      ensures inner.State() == CoreRegistry.Process(old(inner.State()), Withdrawn(key))
    {
      status.OnTombstone(key);
      inner.OnTombstone(key);
    }
  }

  /** Both registries hold the same discovery keys after the first `n` events. */
  ghost predicate Agree(mode: string, events: seq<Event>, n: nat)
    requires n <= |events|
  {
    StatusRegistry.Run(mode, events[..n]).deviceOf.Keys == CoreRegistry.Run(events[..n]).listed.Keys
  }

  /** An announcement without capabilities comes only from a key that is live already. */
  ghost predicate NoEmptyNewcomer(events: seq<Event>, i: nat)
    requires i < |events|
  {
    events[i].Discovered? && events[i].discovery.capabilities == [] ==> events[i].key in Latest(events[..i], false)
  }

  lemma AgreeIsAboutLatest(mode: string, events: seq<Event>, n: nat)
    requires n <= |events|
    ensures Agree(mode, events, n) <==> Latest(events[..n], true).Keys == Latest(events[..n], false).Keys
  {
    StatusRegistry.IndexesInverse(mode, events[..n]);
    CoreRegistry.RegistryHoldsOnlyLive(events[..n]);
  }

  lemma AgreeStep(mode: string, events: seq<Event>, n: nat)
    requires n < |events| && Agree(mode, events, n)
    ensures Agree(mode, events, n + 1) <==> NoEmptyNewcomer(events, n)
  {
    AgreeIsAboutLatest(mode, events, n);
    AgreeIsAboutLatest(mode, events, n + 1);
    assert events[..n + 1][..n] == events[..n];
  }

  ghost predicate NoneUpTo(events: seq<Event>, n: nat)
    requires n <= |events|
  {
    forall i :: 0 <= i < n ==> NoEmptyNewcomer(events, i)
  }

  /**
   * The status page and the entity index track the same live keys at every point of a run, exactly
   * when no key ever becomes live by an announcement without capabilities.
   */
  lemma RegistriesAgreeExactly(mode: string, events: seq<Event>)
    ensures (forall n :: 0 <= n <= |events| ==> Agree(mode, events, n))
       <==> (forall i :: 0 <= i < |events| ==> NoEmptyNewcomer(events, i))
  {
    var follows := (n: nat) => n <= |events| && Agree(mode, events, n);
    var clean := (n: nat) => n <= |events| && NoneUpTo(events, n);
    forall n: nat | n < |events| && clean(n) && follows(n)
      ensures follows(n + 1) <==> clean(n + 1)
    {
      AgreeStep(mode, events, n);
    }
    AgreeIsAboutLatest(mode, events, 0);
    UpTo(follows, clean, |events|);
    assert forall n :: 0 <= n <= |events| ==> (follows(n) <==> Agree(mode, events, n));
  }
}
