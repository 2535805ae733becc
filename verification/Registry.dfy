/** Discovery and tombstone events, and the simple meaning every registry is measured against. */
module DiscoveryEvents {
  import opened Contracts

  datatype Event = Discovered(key: string, discovery: Discovery) | Withdrawn(key: string)

  /** What one event does to the live discoveries; `all` counts even those without capabilities. */
  function Updated(live: map<string, Discovery>, e: Event, all: bool): map<string, Discovery> {
    match e
    case Withdrawn(key) => live - {key}
    case Discovered(key, d) => if all || d.capabilities != [] then live[key := d] else live
  }

  /** The last discovery of each key that was not withdrawn since. */
  function Latest(events: seq<Event>, all: bool): map<string, Discovery> {
    if events == [] then map[] else Updated(Latest(events[..|events| - 1], all), events[|events| - 1], all)
  }
}

/** The logger's entity index: metadata per state key, and the state keys each discovery key listed. */
module CoreRegistry {
  import opened Wrappers
  import opened Contracts
  import opened DiscoveryEvents

  type StateKey = (string, string)

  datatype Entity = Entity(metadata: map<string, string>, kind: CapabilityKind)

  datatype Registry = Registry(entities: map<StateKey, Entity>, listed: map<string, seq<StateKey>>)

  function KindName(kind: CapabilityKind): string {
    match kind
    case Sensor(_) => "sensor"
    case BinarySensor(_) => "binary_sensor"
    case Switch => "switch"
    case Button => "button"
    case Light(_) => "light"
    case Number(_, _, _, _) => "number"
    case Select(_) => "select"
    case Cover => "cover"
    case Climate => "climate"
  }

  function ClassOf(kind: CapabilityKind): Option<string> {
    match kind
    case Sensor(c) => c
    case BinarySensor(c) => c
    case _ => None
  }

  function WithOptional(m: map<string, string>, name: string, value: Option<string>): map<string, string> {
    if value.Some? then m[name := value.value] else m
  }

  function MetadataFor(d: Discovery, c: Capability): map<string, string> {
    var base := map["node_id" := d.device.serviceId, "device_id" := d.device.deviceId, "capability_id" := c.id,
                    "capability_kind" := KindName(c.kind)];
    var withClass := WithOptional(base, "device_class", ClassOf(c.kind));
    WithOptional(withClass["manufacturer" := d.device.manufacturer]["model" := d.device.model], "unit", c.unit)
  }

  function KeyFor(d: Discovery, c: Capability): StateKey {
    (d.device.deviceId, c.id)
  }

  function EntityFor(d: Discovery, c: Capability): Entity {
    Entity(MetadataFor(d, c), c.kind)
  }

  function KeysOf(d: Discovery): seq<StateKey> {
    seq(|d.capabilities|, i requires 0 <= i < |d.capabilities| => KeyFor(d, d.capabilities[i]))
  }

  /** The entities the first `n` capabilities of a discovery describe; a later one replaces an earlier namesake. */
  function Described(d: Discovery, n: nat): (m: map<StateKey, Entity>)
    requires n <= |d.capabilities|
    ensures m.Keys == set sk | sk in KeysOf(d)[..n]
  {
    if n == 0 then map[]
    else
      var c := d.capabilities[n - 1];
      assert KeysOf(d)[..n] == KeysOf(d)[..n - 1] + [KeyFor(d, c)];
      Described(d, n - 1)[KeyFor(d, c) := EntityFor(d, c)]
  }

  function Entities(d: Discovery): map<StateKey, Entity> {
    Described(d, |d.capabilities|)
  }

  lemma EntityKeys(d: Discovery)
    ensures Entities(d).Keys == set sk | sk in KeysOf(d)
  {
    assert KeysOf(d)[..|d.capabilities|] == KeysOf(d);
  }

  lemma DescribedOneMore(kept: map<StateKey, Entity>, d: Discovery, i: nat)
    requires i < |d.capabilities|
    ensures kept + Described(d, i + 1)
         == (kept + Described(d, i))[KeyFor(d, d.capabilities[i]) := EntityFor(d, d.capabilities[i])]
    ensures KeysOf(d)[..i + 1] == KeysOf(d)[..i] + [KeyFor(d, d.capabilities[i])]
  {
  }

  /** Entities without those a key listed. */
  function Without(r: Registry, key: string): map<StateKey, Entity> {
    if key in r.listed then r.entities - (set sk | sk in r.listed[key]) else r.entities
  }

  function Process(r: Registry, e: Event): Registry {
    match e
    case Withdrawn(key) => Registry(Without(r, key), r.listed - {key})
    case Discovered(key, d) =>
      if d.capabilities == [] then r
      else Registry(Without(r, key) + Entities(d), r.listed[key := KeysOf(d)])
  }

  function Written(r: Registry, sk: StateKey): Option<Entity> {
    if sk in r.entities then Some(r.entities[sk]) else None
  }

  class CoreMetadata {
    var entities: map<StateKey, Entity>
    var discoveryEntities: map<string, seq<StateKey>>

    function State(): Registry
      reads this
    {
      Registry(entities, discoveryEntities)
    }

    constructor ()
      ensures State() == Registry(map[], map[])
    {
      entities, discoveryEntities := map[], map[];
    }

    method RemoveListed(key: string)
      modifies this
      ensures State() == Registry(Without(old(State()), key), old(discoveryEntities) - {key})
    {
      if key in discoveryEntities {
        var previousKeys := discoveryEntities[key];
        discoveryEntities := discoveryEntities - {key};
        for i := 0 to |previousKeys|
          invariant entities == old(entities) - (set sk | sk in previousKeys[..i])
          invariant discoveryEntities == old(discoveryEntities) - {key}
        {
          entities := entities - {previousKeys[i]};
        }
        assert previousKeys[..|previousKeys|] == previousKeys;
      }
    }

    method OnDiscovery(key: string, event: Discovery)
      modifies this
      ensures State() == Process(old(State()), Discovered(key, event))
    {
      if event.capabilities == [] {
        return;
      }
      RemoveListed(key);
      ghost var kept := entities;
      var discovered: seq<StateKey> := [];
      for i := 0 to |event.capabilities|
        invariant entities == kept + Described(event, i)
        invariant discovered == KeysOf(event)[..i]
        invariant discoveryEntities == old(discoveryEntities) - {key}
      {
        var capability := event.capabilities[i];
        DescribedOneMore(kept, event, i);
        entities := entities[KeyFor(event, capability) := EntityFor(event, capability)];
        discovered := discovered + [KeyFor(event, capability)];
      }
      discoveryEntities := discoveryEntities[key := discovered];
      assert discovered == KeysOf(event);
    }

    method OnTombstone(key: string)
      modifies this
      ensures State() == Process(old(State()), Withdrawn(key))
    {
      RemoveListed(key);
    }

    /** What a state sample is written with, if anything; otherwise it is dropped. */
    method OnState(device: string, capability: string) returns (written: Option<Entity>)
      ensures written == Written(State(), (device, capability))
    {
      if (device, capability) !in entities {
        return None;
      }
      return Some(entities[(device, capability)]);
    }
  }

  // ---- Runs ----

  ghost function Run(events: seq<Event>): Registry {
    if events == [] then Registry(map[], map[])
    else Process(Run(events[..|events| - 1]), events[|events| - 1])
  }

  ghost function Live(events: seq<Event>): map<string, Discovery> {
    Latest(events, false)
  }

  ghost predicate ListsLive(r: Registry, live: map<string, Discovery>) {
    r.listed.Keys == live.Keys && forall k :: k in live ==> r.listed[k] == KeysOf(live[k])
  }

  /** The live discovery of key `k` describes `sk` by `entity`. */
  ghost predicate Says(live: map<string, Discovery>, k: string, sk: StateKey, entity: Entity) {
    k in live && sk in Entities(live[k]) && entity == Entities(live[k])[sk]
  }

  /** Every indexed entity is the current description of it by some live discovery. */
  ghost predicate OnlyLive(r: Registry, live: map<string, Discovery>) {
    forall sk :: sk in r.entities ==> exists k :: Says(live, k, sk, r.entities[sk])
  }

  /** Where an entity kept by one step comes from. */
  lemma KeptEntity(r: Registry, live: map<string, Discovery>, key: string, sk: StateKey) returns (owner: string)
    requires ListsLive(r, live) && OnlyLive(r, live)
    requires sk in Without(r, key)
    ensures owner != key && Says(live, owner, sk, r.entities[sk])
  {
    owner :| Says(live, owner, sk, r.entities[sk]);
    EntityKeys(live[owner]);
  }

  predicate Ignored(e: Event) {
    e.Discovered? && e.discovery.capabilities == []
  }

  /** Where an entity comes from in one step: the event's discovery, or the index before. */
  lemma StepEntity(r: Registry, e: Event, sk: StateKey)
    requires sk in Process(r, e).entities && !Ignored(e)
    ensures var entity := Process(r, e).entities[sk];
      if e.Discovered? && sk in Entities(e.discovery) then entity == Entities(e.discovery)[sk]
      else sk in Without(r, e.key) && sk in r.entities && entity == r.entities[sk]
  {
  }

  lemma KeptSays(live: map<string, Discovery>, e: Event, k: string, sk: StateKey, entity: Entity)
    requires Says(live, k, sk, entity) && (k != e.key || Ignored(e))
    ensures Says(Updated(live, e, false), k, sk, entity)
  {
  }

  /** Who describes an entity after one step. */
  lemma StepSays(r: Registry, live: map<string, Discovery>, e: Event, sk: StateKey) returns (k: string)
    requires ListsLive(r, live) && OnlyLive(r, live) && sk in Process(r, e).entities
    ensures Says(Updated(live, e, false), k, sk, Process(r, e).entities[sk])
  {
    var entity := Process(r, e).entities[sk];
    if Ignored(e) {
      k :| Says(live, k, sk, r.entities[sk]);
      KeptSays(live, e, k, sk, entity);
    } else {
      StepEntity(r, e, sk);
      if e.Discovered? && sk in Entities(e.discovery) {
        k := e.key;
      } else {
        k := KeptEntity(r, live, e.key, sk);
        KeptSays(live, e, k, sk, entity);
      }
    }
  }

  lemma StepOnlyLive(r: Registry, live: map<string, Discovery>, e: Event)
    requires ListsLive(r, live) && OnlyLive(r, live)
    ensures OnlyLive(Process(r, e), Updated(live, e, false))
  {
    forall sk | sk in Process(r, e).entities
      ensures exists k :: Says(Updated(live, e, false), k, sk, Process(r, e).entities[sk])
    {
      var k := StepSays(r, live, e, sk);
    }
  }

  /**
   * In every run the listed state keys are those of the live discoveries, and every indexed entity is
   * what some live discovery currently says of it.
   */
  lemma {:induction false} RegistryHoldsOnlyLive(events: seq<Event>)
    ensures ListsLive(Run(events), Live(events)) && OnlyLive(Run(events), Live(events))
  {
    if events != [] {
      var before := events[..|events| - 1];
      RegistryHoldsOnlyLive(before);
      StepOnlyLive(Run(before), Live(before), events[|events| - 1]);
    }
  }

  /** After a tombstone none of the capabilities its key had is indexed, whoever else claims them. */
  lemma TombstoneSilences(events: seq<Event>, key: string)
    requires key in Live(events)
    ensures Entities(Live(events)[key]).Keys !! Run(events + [Withdrawn(key)]).entities.Keys
  {
    RegistryHoldsOnlyLive(events);
    assert (events + [Withdrawn(key)])[..|events|] == events;
    EntityKeys(Live(events)[key]);
  }

  /** Every live discovery's current description is what the index holds. */
  ghost predicate Complete(r: Registry, live: map<string, Discovery>) {
    forall k, sk :: k in live && sk in Entities(live[k]) ==> sk in r.entities && r.entities[sk] == Entities(live[k])[sk]
  }

  /** The discoveries a population of keys may ever announce. */
  ghost predicate DrawnFrom(offers: set<(string, Discovery)>, events: seq<Event>) {
    forall i :: 0 <= i < |events| && events[i].Discovered? ==> (events[i].key, events[i].discovery) in offers
  }

  ghost predicate Overlap(d1: Discovery, d2: Discovery, sk: StateKey) {
    sk in Entities(d1) && sk in Entities(d2)
  }

  ghost predicate DisjointOwners(offers: set<(string, Discovery)>) {
    forall a, b, sk :: a in offers && b in offers && Overlap(a.1, b.1, sk) ==> a.0 == b.0
  }

  lemma {:induction false} LiveAreOffers(offers: set<(string, Discovery)>, events: seq<Event>)
    requires DrawnFrom(offers, events)
    ensures forall k :: k in Live(events) ==> (k, Live(events)[k]) in offers
  {
    if events != [] {
      var before := events[..|events| - 1];
      assert DrawnFrom(offers, before) by {
        assert forall i :: 0 <= i < |before| ==> before[i] == events[i];
      }
      LiveAreOffers(offers, before);
      var e := events[|events| - 1];
      forall k | k in Live(events)
        ensures (k, Live(events)[k]) in offers
      {
        if e.key != k || e.Withdrawn? || e.discovery.capabilities == [] {
          assert Live(events)[k] == Live(before)[k];
        }
      }
    }
  }

  lemma {:induction false} DisjointOwnersComplete(offers: set<(string, Discovery)>, events: seq<Event>)
    requires DrawnFrom(offers, events) && DisjointOwners(offers)
    ensures Complete(Run(events), Live(events))
  {
    if events != [] {
      var before := events[..|events| - 1];
      var e := events[|events| - 1];
      DisjointOwnersComplete(offers, before);
      LiveAreOffers(offers, events);
      LiveAreOffers(offers, before);
      RegistryHoldsOnlyLive(before);
      var r, live := Run(before), Live(events);
      forall k, sk | k in live && sk in Entities(live[k])
        ensures sk in Run(events).entities && Run(events).entities[sk] == Entities(live[k])[sk]
      {
        if e.key != k {
          assert k in Live(before) && live[k] == Live(before)[k];
          if e.key in Live(before) {
            var d := Live(before)[e.key];
            EntityKeys(d);
            assert !Overlap(d, live[k], sk) by {
              var a, b := (e.key, d), (k, live[k]);
              assert a in offers && b in offers && a.0 != b.0;
            }
          }
          if e.Discovered? && e.discovery.capabilities != [] {
            assert !Overlap(e.discovery, live[k], sk) by {
              var a, b := (e.key, e.discovery), (k, live[k]);
              assert a in offers && b in offers && a.0 != b.0;
            }
          }
        }
      }
    }
  }

  /** Two keys are announced, then the first is withdrawn. */
  function Clash(a: (string, Discovery), b: (string, Discovery)): seq<Event> {
    [Discovered(a.0, a.1), Discovered(b.0, b.1), Withdrawn(a.0)]
  }

  /** Two keys claim one state key; withdrawing the first takes the entity from the second. */
  lemma SharedClaimLost(a: (string, Discovery), b: (string, Discovery), sk: StateKey)
    requires a.0 != b.0 && Overlap(a.1, b.1, sk)
    ensures var (r, live) := (Run(Clash(a, b)), Live(Clash(a, b)));
      b.0 in live && live[b.0] == b.1 && sk !in r.entities && !Complete(r, live)
  {
    var e1, e2, e3 := Discovered(a.0, a.1), Discovered(b.0, b.1), Withdrawn(a.0);
    var events := [e1, e2, e3];
    assert events[..2] == [e1, e2] && [e1, e2][..1] == [e1] && [e1][..0] == [];
    assert [e1, e2, e3][..2] + [e3] == events;
    assert Latest([e1], false) == map[a.0 := a.1];
    assert Live([e1, e2]) == map[a.0 := a.1][b.0 := b.1];
    TombstoneSilences([e1, e2], a.0);
    assert [e1, e2] + [e3] == events;
    assert sk in Entities(a.1).Keys;
  }

  lemma ClashDrawn(offers: set<(string, Discovery)>, a: (string, Discovery), b: (string, Discovery))
    requires a in offers && b in offers
    ensures DrawnFrom(offers, Clash(a, b))
  {
  }

  /**
   * The index equals the union of what the live discoveries currently describe, in every run of a
   * population, exactly when no two of its keys may describe a common state key.
   */
  lemma UnionExactlyWhenOwnersDisjoint(offers: set<(string, Discovery)>)
    ensures DisjointOwners(offers)
       <==> forall events :: DrawnFrom(offers, events) ==>
              OnlyLive(Run(events), Live(events)) && Complete(Run(events), Live(events))
  {
    if DisjointOwners(offers) {
      forall events | DrawnFrom(offers, events)
        ensures OnlyLive(Run(events), Live(events)) && Complete(Run(events), Live(events))
      {
        RegistryHoldsOnlyLive(events);
        DisjointOwnersComplete(offers, events);
      }
    } else {
      var a, b, sk :| a in offers && b in offers && Overlap(a.1, b.1, sk) && a.0 != b.0;
      SharedClaimLost(a, b, sk);
      ClashDrawn(offers, a, b);
    }
  }

  // ---- Availability samples ----

  /** The selection a sample's id makes: entities of a node or of a device with that id. */
  predicate Matches(e: Entity, id: string) {
    || ("node_id" in e.metadata && e.metadata["node_id"] == id)
    || ("device_id" in e.metadata && e.metadata["device_id"] == id)
  }

  /** The entities an availability sample is written for; when there are none it is dropped. */
  function Selected(entities: map<StateKey, Entity>, id: string): set<StateKey> {
    set sk | sk in entities && Matches(entities[sk], id)
  }

  ghost predicate SpeaksFor(id: string, live: map<string, Discovery>, k: string, sk: StateKey) {
    && k in live && sk in Entities(live[k])
    && (live[k].device.serviceId == id || live[k].device.deviceId == id)
  }

  lemma MetadataMatches(d: Discovery, c: Capability, id: string)
    ensures Matches(EntityFor(d, c), id) <==> d.device.serviceId == id || d.device.deviceId == id
  {
    var m := MetadataFor(d, c);
    assert m["node_id"] == d.device.serviceId && m["device_id"] == d.device.deviceId;
  }

  lemma {:induction false} DescribedMatches(d: Discovery, n: nat, sk: StateKey, id: string)
    requires n <= |d.capabilities| && sk in Described(d, n)
    ensures Matches(Described(d, n)[sk], id) <==> d.device.serviceId == id || d.device.deviceId == id
  {
    var c := d.capabilities[n - 1];
    assert Described(d, n) == Described(d, n - 1)[KeyFor(d, c) := EntityFor(d, c)];
    if sk == KeyFor(d, c) {
      MetadataMatches(d, c, id);
    } else {
      DescribedMatches(d, n - 1, sk, id);
    }
  }

  /**
   * An availability sample reaches only capabilities that a live discovery of its node or device
   * describes; and all of those, for a population whose keys claim disjoint state keys.
   */
  lemma AvailabilityReachesLive(offers: set<(string, Discovery)>, events: seq<Event>, id: string, sk: StateKey)
    requires DrawnFrom(offers, events)
    ensures sk in Selected(Run(events).entities, id) ==> exists k :: SpeaksFor(id, Live(events), k, sk)
    ensures DisjointOwners(offers) ==>
      (sk in Selected(Run(events).entities, id) <==> exists k :: SpeaksFor(id, Live(events), k, sk))
  {
    RegistryHoldsOnlyLive(events);
    var r, live := Run(events), Live(events);
    if sk in Selected(r.entities, id) {
      var k :| Says(live, k, sk, r.entities[sk]);
      DescribedMatches(live[k], |live[k].capabilities|, sk, id);
      assert SpeaksFor(id, live, k, sk);
    }
    if DisjointOwners(offers) && exists k :: SpeaksFor(id, live, k, sk) {
      var k :| SpeaksFor(id, live, k, sk);
      DisjointOwnersComplete(offers, events);
      DescribedMatches(live[k], |live[k].capabilities|, sk, id);
    }
  }

  // ---- State samples ----

  function Tag(e: Entity, name: string): Option<string> {
    if name in e.metadata then Some(e.metadata[name]) else None
  }

  const TAGS: set<string> := {"node_id", "device_id", "capability_id", "capability_kind", "device_class",
                              "manufacturer", "model", "unit"}

  /** The tag that names a kind. */
  predicate Names(tag: string, kind: CapabilityKind) {
    && (tag == "sensor" <==> kind.Sensor?) && (tag == "binary_sensor" <==> kind.BinarySensor?)
    && (tag == "switch" <==> kind.Switch?) && (tag == "button" <==> kind.Button?)
    && (tag == "light" <==> kind.Light?) && (tag == "number" <==> kind.Number?)
    && (tag == "select" <==> kind.Select?) && (tag == "cover" <==> kind.Cover?)
    && (tag == "climate" <==> kind.Climate?)
  }

  /** What an entity says of a capability, tag by tag, and that it says nothing else. */
  predicate Tagged(e: Entity, d: Discovery, c: Capability) {
    && e.kind == c.kind
    && Tag(e, "node_id") == Some(d.device.serviceId) && Tag(e, "device_id") == Some(d.device.deviceId)
    && Tag(e, "capability_id") == Some(c.id)
    && Tag(e, "capability_kind").Some? && Names(Tag(e, "capability_kind").value, c.kind)
    && Tag(e, "device_class") == (if c.kind.Sensor? || c.kind.BinarySensor? then c.kind.deviceClass else None)
    && Tag(e, "manufacturer") == Some(d.device.manufacturer) && Tag(e, "model") == Some(d.device.model)
    && Tag(e, "unit") == c.unit
    && e.metadata.Keys <= TAGS
  }

  /** The discovery's last capability with its id, for this state key. */
  predicate Decisive(d: Discovery, i: nat, sk: StateKey) {
    && i < |d.capabilities| && sk == (d.device.deviceId, d.capabilities[i].id)
    && forall j :: i < j < |d.capabilities| ==> d.capabilities[j].id != d.capabilities[i].id
  }

  lemma KindNames(kind: CapabilityKind)
    ensures Names(KindName(kind), kind)
  {
  }

  lemma NameUnique(a: string, b: string, kind: CapabilityKind)
    requires Names(a, kind) && Names(b, kind)
    ensures a == b
  {
  }

  lemma EntityTagged(d: Discovery, c: Capability)
    ensures Tagged(EntityFor(d, c), d, c)
  {
    KindNames(c.kind);
    var m := MetadataFor(d, c);
    assert m["node_id"] == d.device.serviceId && m["device_id"] == d.device.deviceId && m["capability_id"] == c.id;
    assert m["capability_kind"] == KindName(c.kind);
    assert m["manufacturer"] == d.device.manufacturer && m["model"] == d.device.model;
  }

  /** The tags leave no choice. */
  lemma TagsDetermine(d: Discovery, c: Capability, e: Entity, f: Entity)
    requires Tagged(e, d, c) && Tagged(f, d, c)
    ensures e == f
  {
    NameUnique(Tag(e, "capability_kind").value, Tag(f, "capability_kind").value, c.kind);
    forall name
      ensures name in e.metadata <==> name in f.metadata
      ensures name in e.metadata ==> name in f.metadata && e.metadata[name] == f.metadata[name]
    {
      if name in TAGS {
        assert Tag(e, name) == Tag(f, name);
      }
    }
    assert e.metadata == f.metadata;
  }

  lemma {:induction false} LastDescribes(d: Discovery, n: nat, sk: StateKey) returns (i: nat)
    requires n <= |d.capabilities| && sk in Described(d, n)
    ensures i < n && KeyFor(d, d.capabilities[i]) == sk && Described(d, n)[sk] == EntityFor(d, d.capabilities[i])
    ensures forall j :: i < j < n ==> KeyFor(d, d.capabilities[j]) != sk
  {
    var c := d.capabilities[n - 1];
    assert Described(d, n) == Described(d, n - 1)[KeyFor(d, c) := EntityFor(d, c)];
    if KeyFor(d, c) == sk {
      i := n - 1;
    } else {
      i := LastDescribes(d, n - 1, sk);
    }
  }

  lemma DecisiveDescribes(d: Discovery, i: nat, sk: StateKey)
    requires Decisive(d, i, sk)
    ensures sk in Entities(d) && Entities(d)[sk] == EntityFor(d, d.capabilities[i])
  {
    EntityKeys(d);
    assert KeysOf(d)[i] == sk;
    var k := LastDescribes(d, |d.capabilities|, sk);
  }

  /** The live discovery of key `k` describes `sk` by its capability number `i`, with exactly these tags. */
  ghost predicate TaggedBy(live: map<string, Discovery>, k: string, i: nat, sk: StateKey, entity: Entity) {
    k in live && Decisive(live[k], i, sk) && Tagged(entity, live[k], live[k].capabilities[i])
  }

  lemma SaysIsTagged(live: map<string, Discovery>, k: string, sk: StateKey, entity: Entity)
    ensures Says(live, k, sk, entity) <==> exists i :: TaggedBy(live, k, i, sk, entity)
  {
    if Says(live, k, sk, entity) {
      var i := LastDescribes(live[k], |live[k].capabilities|, sk);
      EntityTagged(live[k], live[k].capabilities[i]);
      assert TaggedBy(live, k, i, sk, entity);
    }
    if i: nat :| TaggedBy(live, k, i, sk, entity) {
      DecisiveDescribes(live[k], i, sk);
      EntityTagged(live[k], live[k].capabilities[i]);
      TagsDetermine(live[k], live[k].capabilities[i], entity, EntityFor(live[k], live[k].capabilities[i]));
    }
  }

  lemma WrittenIsTagged(events: seq<Event>, sk: StateKey, entity: Entity) returns (k: string, i: nat)
    requires Written(Run(events), sk) == Some(entity)
    ensures TaggedBy(Live(events), k, i, sk, entity)
  {
    RegistryHoldsOnlyLive(events);
    k :| Says(Live(events), k, sk, entity);
    SaysIsTagged(Live(events), k, sk, entity);
    i :| TaggedBy(Live(events), k, i, sk, entity);
  }

  lemma TaggedIsWritten(offers: set<(string, Discovery)>, events: seq<Event>, sk: StateKey, entity: Entity,
                        k: string, i: nat)
    requires DrawnFrom(offers, events) && DisjointOwners(offers)
    requires TaggedBy(Live(events), k, i, sk, entity)
    ensures Written(Run(events), sk) == Some(entity)
  {
    SaysIsTagged(Live(events), k, sk, entity);
    DisjointOwnersComplete(offers, events);
  }

  /**
   * A state sample is written only with the tags that a live discovery currently gives its capability;
   * and, for a population whose keys claim disjoint state keys, whenever one gives it any.
   */
  lemma StateReachesLive(offers: set<(string, Discovery)>, events: seq<Event>, sk: StateKey, entity: Entity)
    requires DrawnFrom(offers, events)
    ensures Written(Run(events), sk) == Some(entity) ==> exists k, i :: TaggedBy(Live(events), k, i, sk, entity)
    ensures DisjointOwners(offers) ==>
      (Written(Run(events), sk) == Some(entity) <==> exists k, i :: TaggedBy(Live(events), k, i, sk, entity))
  {
    if Written(Run(events), sk) == Some(entity) {
      var k, i := WrittenIsTagged(events, sk, entity);
    }
    if k: string, i: nat :| DisjointOwners(offers) && TaggedBy(Live(events), k, i, sk, entity) {
      TaggedIsWritten(offers, events, sk, entity, k, i);
    }
  }
}

/** Who owns which state key when discoveries come from Sparkplug births. */
module SparkplugOwners {
  import opened Wrappers
  import opened Contracts
  import opened Topics
  import opened CoreRegistry

  /** A device birth as the ingest adapter reads it: its topic's path and its capabilities. */
  datatype BirthRead = BirthRead(path: DevicePath, capabilities: seq<Capability>)

  function DiscoveryOf(b: BirthRead): Discovery {
    Discovery(Device(b.path.edge, b.path.device, "unknown", "unknown", b.path.device, None), b.capabilities,
              Some(SPB + "/STATE/" + b.path.edge))
  }

  /** The key and the discovery that a birth hands to the event processor. */
  function Offer(b: BirthRead): (string, Discovery) {
    (DiscoveryKey(b.path), DiscoveryOf(b))
  }

  function Offers(births: set<BirthRead>): set<(string, Discovery)> {
    set b | b in births :: Offer(b)
  }

  predicate Announces(b: BirthRead, capability: string) {
    exists i :: 0 <= i < |b.capabilities| && b.capabilities[i].id == capability
  }

  ghost predicate SameCapability(a: BirthRead, b: BirthRead, capability: string) {
    a.path.device == b.path.device && Announces(a, capability) && Announces(b, capability)
  }

  lemma DescribesAnnounced(b: BirthRead, sk: StateKey)
    ensures sk in Entities(DiscoveryOf(b)) <==> sk.0 == b.path.device && Announces(b, sk.1)
  {
    var d := DiscoveryOf(b);
    EntityKeys(d);
    assert forall i :: 0 <= i < |d.capabilities| ==> KeysOf(d)[i] == (b.path.device, b.capabilities[i].id);
    if sk.0 == b.path.device && Announces(b, sk.1) {
      var i :| 0 <= i < |b.capabilities| && b.capabilities[i].id == sk.1;
      assert KeysOf(d)[i] == sk;
    }
  }

  lemma OverlapIsSameCapability(a: BirthRead, b: BirthRead, sk: StateKey)
    ensures Overlap(DiscoveryOf(a), DiscoveryOf(b), sk) <==> sk.0 == a.path.device && SameCapability(a, b, sk.1)
  {
    DescribesAnnounced(a, sk);
    DescribesAnnounced(b, sk);
  }

  /**
   * The keys of births own disjoint state keys exactly when no two paths with another group or edge
   * node share a device id and a capability: a state key names neither group nor edge node.
   */
  lemma OwnersDisjointExactly(births: set<BirthRead>)
    requires forall b :: b in births ==> SlashFreePath(b.path)
    ensures DisjointOwners(Offers(births))
       <==> forall a, b, c :: a in births && b in births && SameCapability(a, b, c) ==>
              a.path.group == b.path.group && a.path.edge == b.path.edge
  {
    if DisjointOwners(Offers(births)) {
      forall a, b, c | a in births && b in births && SameCapability(a, b, c)
        ensures a.path.group == b.path.group && a.path.edge == b.path.edge
      {
        OverlapIsSameCapability(a, b, (a.path.device, c));
        assert Offer(a) in Offers(births) && Offer(b) in Offers(births);
        assert Overlap(Offer(a).1, Offer(b).1, (a.path.device, c));
        PathKeyInjective(a.path, b.path);
      }
    } else {
      var p, q, sk :| p in Offers(births) && q in Offers(births) && Overlap(p.1, q.1, sk) && p.0 != q.0;
      var a, b :| a in births && b in births && Offer(a) == p && Offer(b) == q;
      OverlapIsSameCapability(a, b, sk);
      assert SameCapability(a, b, sk.1);
    }
  }

  /** So a withdrawal at one node silences a device of the same name at another. */
  lemma NodesSilenceEachOther(a: BirthRead, b: BirthRead, capability: string)
    requires SlashFreePath(a.path) && SlashFreePath(b.path) && a.path != b.path && SameCapability(a, b, capability)
    ensures var events := Clash(Offer(a), Offer(b));
      Offer(b).0 in Live(events) && (a.path.device, capability) !in Run(events).entities
  {
    OverlapIsSameCapability(a, b, (a.path.device, capability));
    PathKeyInjective(a.path, b.path);
    SharedClaimLost(Offer(a), Offer(b), (a.path.device, capability));
  }
}
