/** Topic construction and topic parsing, for both bus conventions. */
module Topics {
  import opened Wrappers
  import opened Text

  function SanitizeChar(c: char): char {
    if 'a' <= c <= 'z' || '0' <= c <= '9' then c
    else if 'A' <= c <= 'Z' then c - 'A' + 'a'
    else '_'
  }

  function Sanitize(value: string): (s: string)
    ensures |s| == |value|
    ensures forall i :: 0 <= i < |s| ==> s[i] == SanitizeChar(value[i])
  {
    seq(|value|, i requires 0 <= i < |value| => SanitizeChar(value[i]))
  }

  lemma SanitizeClean(value: string)
    ensures Sanitize(Sanitize(value)) == Sanitize(value)
    ensures Free(Sanitize(value), '/')
  {
    var s := Sanitize(value);
    assert forall i :: 0 <= i < |s| ==> Sanitize(s)[i] == SanitizeChar(s[i]) == s[i];
  }

  /** No two ids of a fleet become the same topic part. */
  predicate SeparateStreams(fleet: set<string>) {
    forall x, y :: x in fleet && y in fleet && Sanitize(x) == Sanitize(y) ==> x == y
  }

  const SPB: string := "spBv1.0"

  /** `spBv1.0/<group>/<verb>/<edge>/<device>`, the common form of DBIRTH, DDATA, DDEATH and DCMD topics. */
  function DeviceTopic(verb: string, group: string, edge: string, device: string): string {
    SPB + "/" + Sanitize(group) + "/" + verb + "/" + Sanitize(edge) + "/" + Sanitize(device)
  }

  datatype DevicePath = DevicePath(group: string, edge: string, device: string)

  /** The ingest adapter's DBIRTH, DDATA and DDEATH parsers, which differ only in the verb. */
  function ParseDeviceTopic(verb: string, topic: string): Option<DevicePath> {
    var parts := Split(topic, '/');
    if |parts| != 5 || parts[0] != SPB || parts[2] != verb then None
    else Some(DevicePath(parts[1], parts[3], parts[4]))
  }

  lemma Regroup(x: string, y: string, z: string)
    ensures x + "/" + y + "/" + z == x + ['/'] + (y + ['/'] + z)
  {
  }

  lemma FiveParts(a: string, b: string, c: string, d: string, e: string)
    requires Free(a, '/') && Free(b, '/') && Free(c, '/') && Free(d, '/') && Free(e, '/')
    ensures Split(a + "/" + b + "/" + c + "/" + d + "/" + e, '/') == [a, b, c, d, e]
  {
    var t3 := d + ['/'] + e;
    var t2 := c + ['/'] + t3;
    var t1 := b + ['/'] + t2;
    Regroup(a + "/" + b + "/" + c, d, e);
    Regroup(a + "/" + b, c, t3);
    Regroup(a, b, t2);
    SplitHead(a, t1, '/');
    SplitHead(b, t2, '/');
    SplitHead(c, t3, '/');
    SplitHead(d, e, '/');
    SplitWhole(e, '/');
  }

  lemma FourParts(a: string, b: string, c: string, d: string)
    requires Free(a, '/') && Free(b, '/') && Free(c, '/') && Free(d, '/')
    ensures Split(a + "/" + b + "/" + c + "/" + d, '/') == [a, b, c, d]
  {
    var t2 := c + ['/'] + d;
    var t1 := b + ['/'] + t2;
    Regroup(a + "/" + b, c, d);
    Regroup(a, b, t2);
    SplitHead(a, t1, '/');
    SplitHead(b, t2, '/');
    SplitHead(c, d, '/');
    SplitWhole(d, '/');
  }

  /**
   * A device topic parses under a verb exactly when it was built with that verb, to the sanitised
   * ids, and publishing the parsed ids again reaches the same topic.
   */
  lemma DeviceTopicRoundTrip(verb: string, asked: string, group: string, edge: string, device: string)
    requires Free(verb, '/')
    ensures ParseDeviceTopic(asked, DeviceTopic(verb, group, edge, device))
         == if asked == verb then Some(DevicePath(Sanitize(group), Sanitize(edge), Sanitize(device))) else None
    ensures DeviceTopic(verb, Sanitize(group), Sanitize(edge), Sanitize(device))
         == DeviceTopic(verb, group, edge, device)
  {
    SanitizeClean(group);
    SanitizeClean(edge);
    SanitizeClean(device);
    assert Free(SPB, '/');
    FiveParts(SPB, Sanitize(group), verb, Sanitize(edge), Sanitize(device));
  }

  function NodeTopic(verb: string, group: string, edge: string): string {
    SPB + "/" + Sanitize(group) + "/" + verb + "/" + Sanitize(edge)
  }

  /** Two device topics are one exactly when their verbs are and all three ids sanitise alike. */
  lemma SharedTopic(v: string, g: string, e: string, d: string, v': string, g': string, e': string, d': string)
    requires Free(v, '/') && Free(v', '/')
    ensures DeviceTopic(v, g, e, d) == DeviceTopic(v', g', e', d')
       <==> v == v' && Sanitize(g) == Sanitize(g') && Sanitize(e) == Sanitize(e') && Sanitize(d) == Sanitize(d')
  {
    DeviceTopicRoundTrip(v, v, g, e, d);
    DeviceTopicRoundTrip(v', v, g', e', d');
  }

  /** A device's topics lie one level below the node's own; so node topics are one as device topics are. */
  lemma SharedNodeTopic(v: string, g: string, e: string, v': string, g': string, e': string)
    requires Free(v, '/') && Free(v', '/')
    ensures forall d :: DeviceTopic(v, g, e, d) == NodeTopic(v, g, e) + "/" + Sanitize(d)
    ensures NodeTopic(v, g, e) == NodeTopic(v', g', e')
       <==> v == v' && Sanitize(g) == Sanitize(g') && Sanitize(e) == Sanitize(e')
  {
    SharedTopic(v, g, e, "", v', g', e', "");
    assert DeviceTopic(v, g, e, "") == NodeTopic(v, g, e) + "/" + Sanitize("");
    assert DeviceTopic(v', g', e', "") == NodeTopic(v', g', e') + "/" + Sanitize("");
  }

  /** The registry key under which one Sparkplug device is announced and withdrawn. */
  function DiscoveryKey(p: DevicePath): string {
    SPB + "/" + p.group + "/" + "DEVICE" + "/" + p.edge + "/" + p.device
  }

  /** The Sparkplug topics as their readers match them, level by level. */
  lemma SparkplugLevels(group: string, edge: string, device: string)
    ensures Split(DeviceTopic("DBIRTH", group, edge, device), '/')
         == ["spBv1.0", Sanitize(group), "DBIRTH", Sanitize(edge), Sanitize(device)]
    ensures Split(NodeTopic("NCMD", group, edge), '/') == ["spBv1.0", Sanitize(group), "NCMD", Sanitize(edge)]
    ensures Split(DiscoveryKey(DevicePath(Sanitize(group), Sanitize(edge), Sanitize(device))), '/')
         == ["spBv1.0", Sanitize(group), "DEVICE", Sanitize(edge), Sanitize(device)]
  {
    var g, e, d := Sanitize(group), Sanitize(edge), Sanitize(device);
    SanitizeClean(group);
    SanitizeClean(edge);
    SanitizeClean(device);
    assert Free("spBv1.0", '/') && Free("DBIRTH", '/') && Free("NCMD", '/') && Free("DEVICE", '/');
    FiveParts("spBv1.0", g, "DBIRTH", e, d);
    FiveParts("spBv1.0", g, "DEVICE", e, d);
    FourParts("spBv1.0", g, "NCMD", e);
  }

  predicate SlashFreePath(p: DevicePath) {
    Free(p.group, '/') && Free(p.edge, '/') && Free(p.device, '/')
  }

  /** Every device read off a topic has slash-free parts. */
  lemma ParsedIsSlashFree(verb: string, topic: string)
    ensures ParseDeviceTopic(verb, topic).Some? ==> SlashFreePath(ParseDeviceTopic(verb, topic).value)
  {
    JoinSplit(topic, '/');
  }

  lemma PathKeyInjective(p: DevicePath, q: DevicePath)
    requires SlashFreePath(p) && SlashFreePath(q)
    ensures DiscoveryKey(p) == DiscoveryKey(q) <==> p == q
  {
    assert Free(SPB, '/') && Free("DEVICE", '/');
    FiveParts(SPB, p.group, "DEVICE", p.edge, p.device);
    FiveParts(SPB, q.group, "DEVICE", q.edge, q.device);
  }

  /** Devices read off any two topics share a registry key only if they are the same device. */
  lemma DiscoveryKeyInjective(v: string, t: string, w: string, u: string)
    requires ParseDeviceTopic(v, t).Some? && ParseDeviceTopic(w, u).Some?
    ensures DiscoveryKey(ParseDeviceTopic(v, t).value) == DiscoveryKey(ParseDeviceTopic(w, u).value)
       <==> ParseDeviceTopic(v, t) == ParseDeviceTopic(w, u)
  {
    ParsedIsSlashFree(v, t);
    ParsedIsSlashFree(w, u);
    PathKeyInjective(ParseDeviceTopic(v, t).value, ParseDeviceTopic(w, u).value);
  }

  // ---- Home Assistant conventions ----

  function ObjectId(device: string, capability: string): string {
    Sanitize(device) + "_" + Sanitize(capability)
  }

  function ConfigTopic(prefix: string, component: string, node: string, device: string, capability: string): string {
    prefix + "/" + component + "/" + Sanitize(node) + "/" + ObjectId(device, capability) + "/" + "config"
  }

  datatype DiscoveryPath = DiscoveryPath(component: string, node: string, objectId: string, key: string)

  function ParseDiscoveryTopic(prefix: string, topic: string): Option<DiscoveryPath> {
    var parts := Split(topic, '/');
    if |parts| != 5 then None
    else if parts[0] != prefix || parts[4] != "config" then None
    else Some(DiscoveryPath(parts[1], parts[2], parts[3], topic))
  }

  function StateTopic(node: string, device: string, capability: string): string {
    "hs" + "/" + "state" + "/" + Sanitize(node) + "/" + Sanitize(device) + "/" + Sanitize(capability)
  }

  function ParseStateTopic(topic: string): Option<(string, string, string)> {
    var parts := Split(topic, '/');
    if |parts| != 5 || parts[0] != "hs" || parts[1] != "state" then None
    else Some((parts[2], parts[3], parts[4]))
  }

  lemma StateTopicRoundTrip(node: string, device: string, capability: string)
    ensures ParseStateTopic(StateTopic(node, device, capability))
         == Some((Sanitize(node), Sanitize(device), Sanitize(capability)))
    ensures StateTopic(Sanitize(node), Sanitize(device), Sanitize(capability)) == StateTopic(node, device, capability)
  {
    SanitizeClean(node);
    SanitizeClean(device);
    SanitizeClean(capability);
    assert Free("hs", '/') && Free("state", '/');
    FiveParts("hs", "state", Sanitize(node), Sanitize(device), Sanitize(capability));
  }

  /**
   * Under a discovery prefix, a built config topic is recognised exactly when the prefix has no
   * slash; then it yields the component, the sanitised node and the object id.
   */
  lemma ConfigTopicRecognised(prefix: string, component: string, node: string, device: string, capability: string)
    requires Free(component, '/')
    ensures ParseDiscoveryTopic(prefix, ConfigTopic(prefix, component, node, device, capability)).Some?
       <==> Free(prefix, '/')
    ensures Free(prefix, '/') ==>
      ParseDiscoveryTopic(prefix, ConfigTopic(prefix, component, node, device, capability))
      == Some(DiscoveryPath(component, Sanitize(node), ObjectId(device, capability),
                            ConfigTopic(prefix, component, node, device, capability)))
  {
    SanitizeClean(node);
    SanitizeClean(device);
    SanitizeClean(capability);
    var topic := ConfigTopic(prefix, component, node, device, capability);
    if Free(prefix, '/') {
      FiveParts(prefix, component, Sanitize(node), ObjectId(device, capability), "config");
    } else {
      JoinSplit(topic, '/');
    }
  }

  /** The Home Assistant topics as their readers match them, level by level. */
  lemma HomeAssistantLevels(component: string, node: string, device: string, capability: string)
    requires Free(component, '/')
    ensures Split(StateTopic(node, device, capability), '/')
         == ["hs", "state", Sanitize(node), Sanitize(device), Sanitize(capability)]
    ensures Split(ConfigTopic("homeassistant", component, node, device, capability), '/')
         == ["homeassistant", component, Sanitize(node), Sanitize(device) + "_" + Sanitize(capability), "config"]
  {
    SanitizeClean(node);
    SanitizeClean(device);
    SanitizeClean(capability);
    assert Free("hs", '/') && Free("state", '/') && Free("homeassistant", '/') && Free("config", '/');
    FiveParts("hs", "state", Sanitize(node), Sanitize(device), Sanitize(capability));
    FiveParts("homeassistant", component, Sanitize(node), ObjectId(device, capability), "config");
  }

  /** `object_id.rsplit_once('_')`. */
  function SplitObjectId(objectId: string): Option<(string, string)> {
    if objectId == [] then None
    else
      var last := |objectId| - 1;
      if objectId[last] == '_' then Some((objectId[..last], []))
      else match SplitObjectId(objectId[..last])
        case None => None
        case Some((d, c)) => Some((d, c + [objectId[last]]))
  }

  lemma {:induction false} SplitObjectIdAtLast(d: string, c: string)
    requires Free(c, '_')
    ensures SplitObjectId(d + "_" + c) == Some((d, c))
  {
    var s := d + "_" + c;
    if c == [] {
      assert s[..|s| - 1] == d;
    } else {
      var c' := c[..|c| - 1];
      assert s[..|s| - 1] == d + "_" + c';
      SplitObjectIdAtLast(d, c');
      assert c' + [c[|c| - 1]] == c;
    }
  }

  lemma {:induction false} SplitObjectIdFree(s: string)
    ensures SplitObjectId(s).Some? ==> Free(SplitObjectId(s).value.1, '_')
  {
    if s != [] {
      SplitObjectIdFree(s[..|s| - 1]);
    }
  }

  /** The fallback split of an object id recovers the sanitised pair exactly when the capability has no underscore. */
  lemma ObjectIdSplitsBack(device: string, capability: string)
    ensures SplitObjectId(ObjectId(device, capability)) == Some((Sanitize(device), Sanitize(capability)))
       <==> Free(Sanitize(capability), '_')
  {
    if Free(Sanitize(capability), '_') {
      SplitObjectIdAtLast(Sanitize(device), Sanitize(capability));
    } else {
      SplitObjectIdFree(ObjectId(device, capability));
    }
  }
}
