/** Command routes of the publish adapter: from subscribing a device's commands to delivering one. */
module CommandRouting {
  import opened Wrappers
  import opened Octets
  import opened Sequences
  import opened Contracts
  import opened Text
  import opened Topics
  import opened SparkplugPayload
  import opened SparkplugMessages
  import opened SparkplugCommands

  /** The routes by command topic. */
  type Routes = map<string, Route>

  function ExpectedType(kind: CapabilityKind): Option<Expected> {
    match kind
    case Switch => Some(ExpectBoolean)
    case Button => Some(ExpectString)
    case _ => None
  }

  /** A capability whose commands were subscribed. */
  datatype Registration = Registration(device: string, capability: Bytes, expected: Expected)

  /** Adds a capability to the route of its topic; a route keeps the device it was made for. */
  function Registered(group: string, edge: string, routes: Routes, r: Registration): Routes {
    var topic := DeviceTopic("DCMD", group, edge, r.device);
    var route := if topic in routes then routes[topic] else Route(r.device, map[]);
    routes[topic := route.(expected := route.expected[r.capability := r.expected])]
  }

  function RegisterAll(group: string, edge: string, routes: Routes, rs: seq<Registration>): Routes {
    if rs == [] then routes
    else Registered(group, edge, RegisterAll(group, edge, routes, rs[..|rs| - 1]), rs[|rs| - 1])
  }

  /**
   * What one request registers: its commandable capabilities, up to the first whose topic could not be
   * subscribed, and whether there was none of those.
   */
  function Accepted(device: string, caps: seq<(Bytes, CapabilityKind)>, oks: seq<bool>): (seq<Registration>, bool)
    requires |oks| == |caps|
    decreases |caps|
  {
    if caps == [] then ([], true)
    else
      var last := |caps| - 1;
      var (before, going) := Accepted(device, caps[..last], oks[..last]);
      var expected := ExpectedType(caps[last].1);
      if !going || expected.None? then (before, going)
      else if oks[last] then (before + [Registration(device, caps[last].0, expected.value)], true)
      else (before, false)
  }

  lemma {:induction false} AcceptedStops(device: string, caps: seq<(Bytes, CapabilityKind)>, oks: seq<bool>, n: nat)
    requires |oks| == |caps| && n <= |caps|
    requires !Accepted(device, caps[..n], oks[..n]).1
    ensures Accepted(device, caps, oks) == Accepted(device, caps[..n], oks[..n])
    decreases |caps|
  {
    if n == |caps| {
      assert caps[..n] == caps && oks[..n] == oks;
    } else {
      var last := |caps| - 1;
      assert caps[..last][..n] == caps[..n] && oks[..last][..n] == oks[..n];
      AcceptedStops(device, caps[..last], oks[..last], n);
    }
  }

  predicate Contains(s: string, part: string) {
    exists i :: 0 <= i <= |s| && part <= s[i..]
  }

  /** What an incoming publish leads to: a rebirth, or commands for the services that listen. */
  datatype Delivery = Delivery(rebirth: bool, commands: seq<Command>)

  function Dispatched(routes: Routes, topic: string, bytes: Bytes): Delivery {
    if Contains(topic, "/NCMD/") then Delivery(IsRebirthRequest(bytes), [])
    else if topic !in routes then Delivery(false, [])
    else Delivery(false, Parsed(routes[topic], bytes).GetOr([]))
  }

  class CommandLoop {
    const group: string
    const edge: string
    var commandRoutes: Routes

    constructor (group: string, edge: string)
      ensures this.group == group && this.edge == edge && commandRoutes == map[]
    {
      this.group, this.edge := group, edge;
      commandRoutes := map[];
    }

    method SubscribeDeviceCommands(device: string, caps: seq<(Bytes, CapabilityKind)>, oks: seq<bool>)
        returns (ok: bool)
      requires |oks| == |caps|
      modifies this`commandRoutes
      ensures ok == Accepted(device, caps, oks).1
      ensures commandRoutes == RegisterAll(group, edge, old(commandRoutes), Accepted(device, caps, oks).0)
    {
      for i := 0 to |caps|
        invariant Accepted(device, caps[..i], oks[..i]).1
        invariant commandRoutes
               == RegisterAll(group, edge, old(commandRoutes), Accepted(device, caps[..i], oks[..i]).0)
      {
        assert caps[..i + 1][..i] == caps[..i] && oks[..i + 1][..i] == oks[..i];
        ghost var rs := Accepted(device, caps[..i], oks[..i]).0;
        var expected := ExpectedType(caps[i].1);
        if expected.None? {
          continue;
        }
        var topic := DeviceTopic("DCMD", group, edge, device);
        if !oks[i] {
          AcceptedStops(device, caps, oks, i + 1);
          return false;
        }
        if topic !in commandRoutes {
          commandRoutes := commandRoutes[topic := Route(device, map[])];
        }
        var route := commandRoutes[topic];
        commandRoutes := commandRoutes[topic := route.(expected := route.expected[caps[i].0 := expected.value])];
        assert (rs + [Registration(device, caps[i].0, expected.value)])[..|rs|] == rs;
      }
      assert caps[..|caps|] == caps && oks[..|oks|] == oks;
      return true;
    }

    method Receive(topic: string, bytes: Bytes) returns (delivery: Delivery)
      ensures delivery == Dispatched(commandRoutes, topic, bytes)
    {
      if Contains(topic, "/NCMD/") {
        return Delivery(IsRebirthRequest(bytes), []);
      }
      if topic !in commandRoutes {
        return Delivery(false, []);
      }
      var parsed := ParseCommandMessages(commandRoutes[topic], bytes);
      return Delivery(false, parsed.GetOr([]));
    }
  }

  // ---- What the routes hold ----

  /** The device whose capability was the first to be registered under a topic. */
  function FirstDevice(group: string, edge: string, rs: seq<Registration>, topic: string): Option<string> {
    if rs == [] then None
    else
      var before := FirstDevice(group, edge, rs[..|rs| - 1], topic);
      var r := rs[|rs| - 1];
      if before.None? && DeviceTopic("DCMD", group, edge, r.device) == topic then Some(r.device) else before
  }

  /** The type a capability was last registered with under a topic. */
  function LastType(group: string, edge: string, rs: seq<Registration>, topic: string,
                    capability: Bytes): Option<Expected> {
    if rs == [] then None
    else
      var r := rs[|rs| - 1];
      if DeviceTopic("DCMD", group, edge, r.device) == topic && r.capability == capability then Some(r.expected)
      else LastType(group, edge, rs[..|rs| - 1], topic, capability)
  }

  function RouteType(routes: Routes, topic: string, capability: Bytes): Option<Expected> {
    if topic in routes && capability in routes[topic].expected then Some(routes[topic].expected[capability])
    else None
  }

  /** After any registrations, a topic's route belongs to the first device and expects what was asked last. */
  lemma {:induction false} RoutesExactly(group: string, edge: string, rs: seq<Registration>, topic: string,
                                         capability: Bytes)
    ensures var routes := RegisterAll(group, edge, map[], rs);
      && RouteType(routes, topic, capability) == LastType(group, edge, rs, topic, capability)
      && FirstDevice(group, edge, rs, topic) == if topic in routes then Some(routes[topic].device) else None
  {
    if rs != [] {
      RoutesExactly(group, edge, rs[..|rs| - 1], topic, capability);
    }
  }

  lemma {:induction false} RegisterConcat(group: string, edge: string, routes: Routes, a: seq<Registration>,
                                          b: seq<Registration>)
    ensures RegisterAll(group, edge, routes, a + b) == RegisterAll(group, edge, RegisterAll(group, edge, routes, a), b)
  {
    if b == [] {
      assert a + b == a;
    } else {
      assert (a + b)[..|a + b| - 1] == a + b[..|b| - 1];
      RegisterConcat(group, edge, routes, a, b[..|b| - 1]);
    }
  }

  /** One call of `subscribe_device_commands`, with the outcome of each subscribe it may make. */
  datatype Request = Request(device: string, caps: seq<(Bytes, CapabilityKind)>, oks: seq<bool>)

  predicate Answered(requests: seq<Request>) {
    forall i :: 0 <= i < |requests| ==> |requests[i].oks| == |requests[i].caps|
  }

  /** The routes after a run of requests, one after the other. */
  ghost function RoutesAfter(group: string, edge: string, requests: seq<Request>): Routes
    requires Answered(requests)
  {
    if requests == [] then map[]
    else
      var last := requests[|requests| - 1];
      RegisterAll(group, edge, RoutesAfter(group, edge, requests[..|requests| - 1]),
                  Accepted(last.device, last.caps, last.oks).0)
  }

  /** All that a run of requests got accepted, in order. */
  function AcceptedAll(requests: seq<Request>): seq<Registration>
    requires Answered(requests)
  {
    if requests == [] then []
    else
      var last := requests[|requests| - 1];
      AcceptedAll(requests[..|requests| - 1]) + Accepted(last.device, last.caps, last.oks).0
  }

  lemma {:induction false} RequestsRegister(group: string, edge: string, requests: seq<Request>)
    requires Answered(requests)
    ensures RoutesAfter(group, edge, requests) == RegisterAll(group, edge, map[], AcceptedAll(requests))
  {
    if requests != [] {
      var last := requests[|requests| - 1];
      var before := AcceptedAll(requests[..|requests| - 1]);
      RequestsRegister(group, edge, requests[..|requests| - 1]);
      RegisterConcat(group, edge, map[], before, Accepted(last.device, last.caps, last.oks).0);
    }
  }

  /**
   * After any run of requests, with any subscribes failing, a topic's route belongs to the first device
   * that got a capability accepted under it, and expects what was accepted last.
   */
  lemma RequestsRoute(group: string, edge: string, requests: seq<Request>, topic: string, capability: Bytes)
    requires Answered(requests)
    ensures var routes := RoutesAfter(group, edge, requests);
      var rs := AcceptedAll(requests);
      && RouteType(routes, topic, capability) == LastType(group, edge, rs, topic, capability)
      && FirstDevice(group, edge, rs, topic) == if topic in routes then Some(routes[topic].device) else None
  {
    RequestsRegister(group, edge, requests);
    RoutesExactly(group, edge, AcceptedAll(requests), topic, capability);
  }

  // ---- Commands reach their device ----

  ghost predicate OfFleet(fleet: set<string>, rs: seq<Registration>) {
    forall i :: 0 <= i < |rs| ==> rs[i].device in fleet
  }

  /** Commands on a device's topic are handed out under that device's id. */
  ghost predicate Addressed(group: string, edge: string, rs: seq<Registration>) {
    forall i :: 0 <= i < |rs| ==>
      FirstDevice(group, edge, rs, DeviceTopic("DCMD", group, edge, rs[i].device)) == Some(rs[i].device)
  }

  lemma {:induction false} FirstDeviceIsMember(group: string, edge: string, rs: seq<Registration>, topic: string)
    ensures match FirstDevice(group, edge, rs, topic)
      case Some(device) => DeviceTopic("DCMD", group, edge, device) == topic
                           && exists i :: 0 <= i < |rs| && rs[i].device == device
      case None => forall i :: 0 <= i < |rs| ==> DeviceTopic("DCMD", group, edge, rs[i].device) != topic
  {
    if rs != [] {
      FirstDeviceIsMember(group, edge, rs[..|rs| - 1], topic);
    }
  }

  lemma SeparateAddressed(group: string, edge: string, fleet: set<string>, rs: seq<Registration>)
    requires SeparateStreams(fleet) && OfFleet(fleet, rs)
    ensures Addressed(group, edge, rs)
  {
    forall i | 0 <= i < |rs|
      ensures FirstDevice(group, edge, rs, DeviceTopic("DCMD", group, edge, rs[i].device)) == Some(rs[i].device)
    {
      var topic := DeviceTopic("DCMD", group, edge, rs[i].device);
      FirstDeviceIsMember(group, edge, rs, topic);
      var first := FirstDevice(group, edge, rs, topic).value;
      assert Free("DCMD", '/');
      SharedTopic("DCMD", group, edge, first, "DCMD", group, edge, rs[i].device);
    }
  }

  lemma SharedRouteMisaddressed(group: string, edge: string, x: string, y: string)
    requires x != y && Sanitize(x) == Sanitize(y)
    ensures !Addressed(group, edge, [Registration(x, [], ExpectBoolean), Registration(y, [], ExpectBoolean)])
  {
    var r, q := Registration(x, [], ExpectBoolean), Registration(y, [], ExpectBoolean);
    assert [r, q][..1] == [r] && [r][..0] == [];
    assert FirstDevice(group, edge, [r], DeviceTopic("DCMD", group, edge, y)) == Some(x);
    assert [r, q][1].device == y;
  }

  /**
   * Whatever a fleet registers, every device's commands are handed out under its own id, exactly when
   * no two of its ids sanitise to the same topic.
   */
  lemma CommandsReachTheirDevice(group: string, edge: string, fleet: set<string>)
    ensures SeparateStreams(fleet) <==> forall rs :: OfFleet(fleet, rs) ==> Addressed(group, edge, rs)
  {
    if SeparateStreams(fleet) {
      forall rs | OfFleet(fleet, rs)
        ensures Addressed(group, edge, rs)
      {
        SeparateAddressed(group, edge, fleet, rs);
      }
    } else {
      var x, y :| x in fleet && y in fleet && Sanitize(x) == Sanitize(y) && x != y;
      var rs := [Registration(x, [], ExpectBoolean), Registration(y, [], ExpectBoolean)];
      SharedRouteMisaddressed(group, edge, x, y);
      assert OfFleet(fleet, rs);
    }
  }

  // ---- Which topics are node commands ----

  lemma LevelsFound(a: string, c: string)
    ensures Split(a + "/" + ("NCMD" + "/" + c), '/') == Split(a, '/') + ["NCMD"] + Split(c, '/')
  {
    SplitConcat(a, "NCMD" + "/" + c, '/');
    assert Free("NCMD", '/');
    SplitHead("NCMD", c, '/');
    Assoc(Split(a, '/'), ["NCMD"], Split(c, '/'));
  }

  lemma LevelsApart(parts: seq<string>, i: nat)
    requires 0 < i < |parts| - 1 && parts[i] == "NCMD"
    ensures Contains(Join(parts, '/'), "/NCMD/")
  {
    var a, b := parts[..i], parts[i + 1..];
    assert parts == a + ([parts[i]] + b);
    JoinConcat(a, [parts[i]] + b, '/');
    JoinConcat([parts[i]], b, '/');
    var topic := Join(a, '/') + ("/" + ("NCMD" + "/" + Join(b, '/')));
    assert Join(parts, '/') == topic;
    Rest(Join(a, '/'), "/" + ("NCMD" + "/" + Join(b, '/')));
    assert "/NCMD/" <= topic[|Join(a, '/')|..];
  }

  /** A topic is taken for a node command exactly when a level of it is that verb, neither the first nor the last. */
  lemma NodeCommandExactly(topic: string)
    ensures Contains(topic, "/NCMD/")
       <==> exists i :: 0 < i < |Split(topic, '/')| - 1 && Split(topic, '/')[i] == "NCMD"
  {
    if i :| 0 <= i <= |topic| && "/NCMD/" <= topic[i..] {
      var a, c := topic[..i], topic[i..][6..];
      assert topic[i..] == "/NCMD/" + c && "/NCMD/" + c == "/" + ("NCMD" + "/" + c);
      assert topic == a + "/" + ("NCMD" + "/" + c);
      LevelsFound(a, c);
      assert Split(topic, '/')[|Split(a, '/')|] == "NCMD";
    }
    if i :| 0 < i < |Split(topic, '/')| - 1 && Split(topic, '/')[i] == "NCMD" {
      JoinSplit(topic, '/');
      LevelsApart(Split(topic, '/'), i);
    }
  }

  // ---- From the tool and the ingest adapter to here ----

  lemma FreeConcat(a: string, b: string, c: char)
    requires Free(a, c) && Free(b, c)
    ensures Free(a + b, c)
  {
  }

  /** A command topic is never taken for a node command: it has no capital N. */
  lemma CommandTopicIsNoNodeCommand(group: string, edge: string, device: string)
    ensures !Contains(DeviceTopic("DCMD", group, edge, device), "/NCMD/")
  {
    var g, e, d := Sanitize(group), Sanitize(edge), Sanitize(device);
    assert Free(SPB + "/", 'N');
    FreeConcat(SPB + "/", g, 'N');
    FreeConcat(SPB + "/" + g, "/", 'N');
    FreeConcat(SPB + "/" + g + "/", "DCMD", 'N');
    FreeConcat(SPB + "/" + g + "/" + "DCMD", "/", 'N');
    FreeConcat(SPB + "/" + g + "/" + "DCMD" + "/", e, 'N');
    FreeConcat(SPB + "/" + g + "/" + "DCMD" + "/" + e, "/", 'N');
    FreeConcat(SPB + "/" + g + "/" + "DCMD" + "/" + e + "/", d, 'N');
    FreeContainsNone(DeviceTopic("DCMD", group, edge, device));
  }

  lemma FreeContainsNone(topic: string)
    requires Free(topic, 'N')
    ensures !Contains(topic, "/NCMD/")
  {
    forall i | 0 <= i <= |topic|
      ensures !("/NCMD/" <= topic[i..])
    {
      assert |topic[i..]| > 1 ==> topic[i..][1] != "/NCMD/"[1];
    }
  }

  predicate Commandable(kind: CapabilityKind) {
    kind.Switch? || kind.Button?
  }

  /** Entry `i` is commandable, and its subscribe and that of every commandable entry before it succeeded. */
  predicate AcceptedAt(r: Request, i: nat)
    requires |r.oks| == |r.caps|
  {
    && i < |r.caps| && Commandable(r.caps[i].1)
    && forall j :: 0 <= j <= i && Commandable(r.caps[j].1) ==> r.oks[j]
  }

  /** The kind of the last accepted entry with this name among the first `n`. */
  function LastKindIn(r: Request, name: Bytes, n: nat): Option<CapabilityKind>
    requires |r.oks| == |r.caps| && n <= |r.caps|
  {
    if n == 0 then None
    else if AcceptedAt(r, n - 1) && r.caps[n - 1].0 == name then Some(r.caps[n - 1].1)
    else LastKindIn(r, name, n - 1)
  }

  /** The kind a name was last accepted with under a topic, in a run of requests. */
  function LastKind(group: string, edge: string, requests: seq<Request>, topic: string,
                    name: Bytes): Option<CapabilityKind>
    requires Answered(requests)
  {
    if requests == [] then None
    else
      var last := requests[|requests| - 1];
      if DeviceTopic("DCMD", group, edge, last.device) == topic && LastKindIn(last, name, |last.caps|).Some?
      then LastKindIn(last, name, |last.caps|) else LastKind(group, edge, requests[..|requests| - 1], topic, name)
  }

  predicate AcceptsAny(r: Request)
    requires |r.oks| == |r.caps|
  {
    exists i :: 0 <= i < |r.caps| && AcceptedAt(r, i)
  }

  /** The device of the first request that got anything accepted under a topic. */
  function Owner(group: string, edge: string, requests: seq<Request>, topic: string): Option<string>
    requires Answered(requests)
  {
    if requests == [] then None
    else
      var before := Owner(group, edge, requests[..|requests| - 1], topic);
      var last := requests[|requests| - 1];
      if before.None? && DeviceTopic("DCMD", group, edge, last.device) == topic && AcceptsAny(last)
      then Some(last.device) else before
  }

  function TypeFor(kind: Option<CapabilityKind>): Option<Expected> {
    match kind
    case Some(Switch) => Some(ExpectBoolean)
    case Some(Button) => Some(ExpectString)
    case _ => None
  }

  /** The request goes on as long as no commandable entry fails. */
  lemma {:induction false} GoingExactly(r: Request, n: nat)
    requires |r.oks| == |r.caps| && n <= |r.caps|
    ensures Accepted(r.device, r.caps[..n], r.oks[..n]).1
       <==> forall j :: 0 <= j < n && Commandable(r.caps[j].1) ==> r.oks[j]
  {
    if n > 0 {
      GoingExactly(r, n - 1);
      assert r.caps[..n][..n - 1] == r.caps[..n - 1] && r.oks[..n][..n - 1] == r.oks[..n - 1];
    }
  }

  /** One more entry adds its registration exactly when it is accepted. */
  lemma AcceptedOneMore(r: Request, n: nat)
    requires |r.oks| == |r.caps| && n < |r.caps|
    ensures Accepted(r.device, r.caps[..n + 1], r.oks[..n + 1]).0
         == Accepted(r.device, r.caps[..n], r.oks[..n]).0
            + if !AcceptedAt(r, n) then []
              else [Registration(r.device, r.caps[n].0, TypeFor(Some(r.caps[n].1)).value)]
  {
    GoingExactly(r, n);
    assert r.caps[..n + 1][..n] == r.caps[..n] && r.oks[..n + 1][..n] == r.oks[..n];
  }

  lemma {:induction false} AcceptedShape(r: Request, n: nat)
    requires |r.oks| == |r.caps| && n <= |r.caps|
    ensures var more := Accepted(r.device, r.caps[..n], r.oks[..n]).0;
      && (more != [] <==> exists i :: 0 <= i < n && AcceptedAt(r, i))
      && forall i :: 0 <= i < |more| ==> more[i].device == r.device
  {
    if n > 0 {
      AcceptedShape(r, n - 1);
      AcceptedOneMore(r, n - 1);
    }
  }

  lemma LastTypeOneMore(group: string, edge: string, rs: seq<Registration>, more: seq<Registration>, r: Registration,
                        topic: string, name: Bytes)
    ensures LastType(group, edge, rs + (more + [r]), topic, name)
         == if DeviceTopic("DCMD", group, edge, r.device) == topic && r.capability == name then Some(r.expected)
            else LastType(group, edge, rs + more, topic, name)
  {
    assert (rs + (more + [r]))[..|rs + more|] == rs + more;
  }

  /** What the first `n` entries of a request change about a name. */
  lemma {:induction false} RequestAdds(group: string, edge: string, rs: seq<Registration>, r: Request, n: nat,
                                       topic: string, name: Bytes)
    requires |r.oks| == |r.caps| && n <= |r.caps|
    ensures LastType(group, edge, rs + Accepted(r.device, r.caps[..n], r.oks[..n]).0, topic, name)
         == if DeviceTopic("DCMD", group, edge, r.device) == topic && LastKindIn(r, name, n).Some?
            then TypeFor(LastKindIn(r, name, n)) else LastType(group, edge, rs, topic, name)
  {
    if n == 0 {
      assert rs + [] == rs;
    } else {
      RequestAdds(group, edge, rs, r, n - 1, topic, name);
      AcceptedOneMore(r, n - 1);
      var before := Accepted(r.device, r.caps[..n - 1], r.oks[..n - 1]).0;
      if AcceptedAt(r, n - 1) {
        var c := r.caps[n - 1];
        LastTypeOneMore(group, edge, rs, before, Registration(r.device, c.0, TypeFor(Some(c.1)).value), topic, name);
      } else {
        assert before + [] == before;
      }
    }
  }

  /** A request's registrations are all for its device. */
  lemma {:induction false} OwnerAfter(group: string, edge: string, rs: seq<Registration>, more: seq<Registration>,
                                      device: string, topic: string)
    requires forall i :: 0 <= i < |more| ==> more[i].device == device
    ensures FirstDevice(group, edge, rs + more, topic)
         == if FirstDevice(group, edge, rs, topic).Some? || more == [] then FirstDevice(group, edge, rs, topic)
            else if DeviceTopic("DCMD", group, edge, device) == topic then Some(device) else None
  {
    if more == [] {
      assert rs + more == rs;
    } else {
      assert (rs + more)[..|rs + more| - 1] == rs + more[..|more| - 1];
      OwnerAfter(group, edge, rs, more[..|more| - 1], device, topic);
    }
  }

  /** The registrations of a run, read off its requests. */
  lemma {:induction false} KindsDecide(group: string, edge: string, requests: seq<Request>, topic: string, name: Bytes)
    requires Answered(requests)
    ensures LastType(group, edge, AcceptedAll(requests), topic, name)
         == TypeFor(LastKind(group, edge, requests, topic, name))
    ensures FirstDevice(group, edge, AcceptedAll(requests), topic) == Owner(group, edge, requests, topic)
  {
    if requests != [] {
      var last, before := requests[|requests| - 1], requests[..|requests| - 1];
      KindsDecide(group, edge, before, topic, name);
      RequestAdds(group, edge, AcceptedAll(before), last, |last.caps|, topic, name);
      AcceptedShape(last, |last.caps|);
      assert last.caps[..|last.caps|] == last.caps && last.oks[..|last.oks|] == last.oks;
      OwnerAfter(group, edge, AcceptedAll(before), Accepted(last.device, last.caps, last.oks).0, last.device, topic);
    }
  }

  /**
   * The command a metric stands for, read off the requests: a Boolean for a name last accepted as a
   * switch, a text for one last accepted as a button, unless it is declared as something else.
   */
  function Answer(group: string, edge: string, requests: seq<Request>, topic: string, m: Metric): Option<Command>
    requires Answered(requests)
  {
    if m.name.None? || Owner(group, edge, requests, topic).None? then None
    else
      var owner := Owner(group, edge, requests, topic).value;
      match (LastKind(group, edge, requests, topic, m.name.value), m.value)
      case (Some(Switch), Some(BooleanValue(flag))) =>
        if Allows(m.dataType, 11) then Some(Command(owner, m.name.value, JsonBool(flag))) else None
      case (Some(Button), Some(StringValue(text))) =>
        if Allows(m.dataType, 12) then Some(Command(owner, m.name.value, JsonString(text))) else None
      case _ => None
  }

  function Answers(group: string, edge: string, requests: seq<Request>, topic: string,
                   metrics: seq<Metric>): seq<Command>
    requires Answered(requests)
  {
    if metrics == [] then []
    else
      var last := Answer(group, edge, requests, topic, metrics[|metrics| - 1]);
      Answers(group, edge, requests, topic, metrics[..|metrics| - 1]) + if last.Some? then [last.value] else []
  }

  lemma MetricAnswered(group: string, edge: string, requests: seq<Request>, topic: string, m: Metric)
    requires Answered(requests)
    ensures var routes := RoutesAfter(group, edge, requests);
      Answer(group, edge, requests, topic, m) == if topic in routes then CommandOf(routes[topic], m) else None
  {
    var name := m.name.GetOr([]);
    RequestsRoute(group, edge, requests, topic, name);
    KindsDecide(group, edge, requests, topic, name);
  }

  lemma {:induction false} MetricsAnswered(group: string, edge: string, requests: seq<Request>, topic: string,
                                           metrics: seq<Metric>)
    requires Answered(requests)
    ensures var routes := RoutesAfter(group, edge, requests);
      Answers(group, edge, requests, topic, metrics)
      == if topic in routes then CommandsOf(routes[topic], metrics) else []
  {
    if metrics != [] {
      MetricsAnswered(group, edge, requests, topic, metrics[..|metrics| - 1]);
      MetricAnswered(group, edge, requests, topic, metrics[|metrics| - 1]);
    }
  }

  /**
   * Any payload published on a device's command topic is delivered as the answers to its metrics, in
   * order: what a capability may be commanded with is what it was last accepted as.
   */
  lemma CommandsDelivered(group: string, edge: string, requests: seq<Request>, device: string, p: Payload)
    requires Answered(requests) && PayloadFits(p)
    ensures var topic := DeviceTopic("DCMD", group, edge, device);
      Dispatched(RoutesAfter(group, edge, requests), topic, EncodePayload(p))
      == Delivery(false, Answers(group, edge, requests, topic, p.metrics))
  {
    var topic := DeviceTopic("DCMD", group, edge, device);
    CommandTopicIsNoNodeCommand(group, edge, device);
    MetricsAnswered(group, edge, requests, topic, p.metrics);
    PayloadRoundTrip(p);
  }

  /**
   * The tool's payload, published on a device's command topic, is delivered as one command with the
   * requested state, to the device the topic belongs to, exactly when that capability was last
   * accepted there as a switch and the sequence number fits 64 bits.
   */
  lemma ToolReachesDevice(group: string, edge: string, requests: seq<Request>, device: string, name: Bytes,
                          enabled: bool, seqNo: Option<nat>, now: nat)
    requires Answered(requests)
    requires now < U64 && |EncodeMetric(ToolMetric(name, enabled))| < U64 && |name| < U64
    ensures var topic := DeviceTopic("DCMD", group, edge, device);
      Dispatched(RoutesAfter(group, edge, requests), topic, EncodePayload(ToolPayload(name, enabled, seqNo, now)))
      == Delivery(false, if (seqNo.Some? ==> seqNo.value < U64)
                            && LastKind(group, edge, requests, topic, name) == Some(Switch)
                         then [Command(Owner(group, edge, requests, topic).GetOr(device), name, JsonBool(enabled))]
                         else [])
  {
    var topic := DeviceTopic("DCMD", group, edge, device);
    var routes := RoutesAfter(group, edge, requests);
    CommandTopicIsNoNodeCommand(group, edge, device);
    RequestsRoute(group, edge, requests, topic, name);
    KindsDecide(group, edge, requests, topic, name);
    if topic in routes {
      ToolCommandDelivered(routes[topic], name, enabled, seqNo, now);
    }
  }

  /**
   * A rebirth request to the ids the ingest adapter parsed off a topic arrives at the node that
   * published under them, and is recognised there, whatever its routes.
   */
  lemma RebirthRequestArrives(group: string, edge: string, routes: Routes, now: nat)
    requires PayloadFits(ControlPayload(true, now))
    ensures NodeTopic("NCMD", Sanitize(group), Sanitize(edge)) == NodeTopic("NCMD", group, edge)
    ensures Dispatched(routes, NodeTopic("NCMD", group, edge), EncodePayload(ControlPayload(true, now)))
         == Delivery(true, [])
  {
    SanitizeClean(group);
    SanitizeClean(edge);
    RebirthRecognised(true, now);
    var topic := NodeTopic("NCMD", group, edge);
    var at := |SPB + "/" + Sanitize(group)|;
    assert topic == SPB + "/" + Sanitize(group) + ("/" + "NCMD" + "/" + Sanitize(edge));
    assert topic[at..] == "/NCMD/" + Sanitize(edge);
    assert "/NCMD/" <= topic[at..];
  }
}
