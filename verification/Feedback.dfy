/**
 * The loop from mismatches over rebirth requests to rebirths, which lead to mismatches again: how fast
 * it can turn, and what one loss or one rebirth costs when nothing stops it.
 */
module RebirthFeedback {
  import opened Wrappers
  import opened Octets
  import opened Contracts
  import opened SparkplugIngest
  import opened SparkplugPublisher
  import opened SequenceProtocol

  // ---- Requests and rebirths over runs ----

  /** Rebirths begun, requests by other hosts, requests by the ingest adapter to this node, and all mismatches. */
  datatype Tally = Tally(begun: nat, hosted: nat, asked: nat, mismatched: nat)

  ghost function Count(node: Node, s: System, t: Tally, a: Action): Tally {
    match a
    case HostRequest => t.(hosted := t.hosted + 1)
    case BeginRebirth(order, _, outcomes) => if Begins(s, order, outcomes) then t.(begun := t.begun + 1) else t
    case Deliver(ncmdOk) =>
      if s.wire == [] then t
      else
        var v := Receive(s.ingest, s.wire[0].message, s.now, ncmdOk);
        var own := Edge(s.wire[0].message.key) == EdgeOf(node);
        t.(asked := t.asked + (if v.requested && own then 1 else 0),
           mismatched := t.mismatched + if v.mismatch then 1 else 0)
    case _ => t
  }

  ghost function Tallied(node: Node, actions: seq<Action>): Tally {
    if actions == [] then Tally(0, 0, 0, 0)
    else
      var before := actions[..|actions| - 1];
      Count(node, After(node, before), Tallied(node, before), actions[|actions| - 1])
  }

  /** The latest request came no earlier than the cooldowns between it and the first one allow. */
  ghost predicate Paced(node: Node, s: System, asked: nat) {
    asked == 0
    || (EdgeOf(node) in s.ingest.lastRequest
        && (asked - 1) * REBIRTH_COOLDOWN_MS <= s.ingest.lastRequest[EdgeOf(node)] <= s.now)
  }

  ghost predicate Loops(node: Node, s: System, t: Tally) {
    && t.begun + s.requests <= t.hosted + t.asked
    && t.asked <= t.mismatched
    && Paced(node, s, t.asked)
  }

  lemma DeliverLoops(node: Node, s: System, t: Tally, ncmdOk: bool)
    requires Loops(node, s, t) && s.wire != []
    ensures Loops(node, Step(node, s, Deliver(ncmdOk)), Count(node, s, t, Deliver(ncmdOk)))
  {
    var m := s.wire[0].message;
    if Receive(s.ingest, m, s.now, ncmdOk).requested && Edge(m.key) == EdgeOf(node) {
      assert t.asked * REBIRTH_COOLDOWN_MS <= s.now;
    }
  }

  lemma StepLoops(node: Node, s: System, t: Tally, a: Action)
    requires Loops(node, s, t)
    ensures Loops(node, Step(node, s, a), Count(node, s, t, a))
  {
    match a
    case Deliver(ncmdOk) =>
      if s.wire != [] {
        DeliverLoops(node, s, t, ncmdOk);
      }
    case _ =>
  }

  lemma {:induction false} RunLoops(node: Node, actions: seq<Action>)
    ensures Loops(node, After(node, actions), Tallied(node, actions))
  {
    if actions != [] {
      var before := actions[..|actions| - 1];
      RunLoops(node, before);
      StepLoops(node, After(node, before), Tallied(node, before), actions[|actions| - 1]);
    }
  }

  /**
   * In every run of a node, rebirths begun never exceed the requests made, the ingest adapter's requests
   * never exceed the mismatches, and they come at most once per cooldown.
   */
  lemma RebirthsAnswerRequests(node: Node, actions: seq<Action>)
    ensures var t := Tallied(node, actions);
      && t.begun <= t.hosted + t.asked
      && t.asked <= t.mismatched
      && t.asked <= 1 + After(node, actions).now / REBIRTH_COOLDOWN_MS
  {
    RunLoops(node, actions);
  }

  // ---- Rebirths delivered to one device ----

  function RebornIn(wire: seq<Packet>, device: string): nat {
    if wire == [] then 0 else (if wire[0].origin == Reborn(device) then 1 else 0) + RebornIn(wire[1..], device)
  }

  function BirthsFor(pending: seq<Attempt>, device: string): nat {
    if pending == [] then 0
    else (if pending[0].DeviceBirth? && pending[0].discovery.device.deviceId == device then 1 else 0)
         + BirthsFor(pending[1..], device)
  }

  lemma {:induction false} RebornConcat(a: seq<Packet>, b: seq<Packet>, device: string)
    ensures RebornIn(a + b, device) == RebornIn(a, device) + RebornIn(b, device)
  {
    if a == [] {
      assert a + b == b;
    } else {
      assert (a + b)[1..] == a[1..] + b;
      RebornConcat(a[1..], b, device);
    }
  }

  lemma RebornAppended(wire: seq<Packet>, p: Packet, device: string)
    ensures RebornIn(wire + [p], device) == RebornIn(wire, device) + if p.origin == Reborn(device) then 1 else 0
  {
    RebornConcat(wire, [p], device);
    assert [p][1..] == [];
  }

  lemma RebornRemoved(wire: seq<Packet>, i: nat, device: string)
    requires i < |wire|
    ensures RebornIn(wire[..i] + wire[i + 1..], device) <= RebornIn(wire, device)
  {
    assert wire == wire[..i] + wire[i..] && wire[i..][1..] == wire[i + 1..];
    RebornConcat(wire[..i], wire[i..], device);
    RebornConcat(wire[..i], wire[i + 1..], device);
  }

  lemma {:induction false} NoBirthFor(discoveries: map<string, Discovery>, order: seq<string>, outcomes: seq<bool>,
                                      device: string)
    requires |outcomes| == |order|
    requires forall i :: 0 <= i < |order| ==> order[i] in discoveries && discoveries[order[i]].device.deviceId != device
    ensures BirthsFor(Births(discoveries, order, outcomes), device) == 0
  {
    if order != [] {
      assert Births(discoveries, order, outcomes)[1..] == Births(discoveries, order[1..], outcomes[1..]);
      NoBirthFor(discoveries, order[1..], outcomes[1..], device);
    }
  }

  /** Stored discoveries are kept under their own device ids. */
  ghost predicate OwnIds(discoveries: map<string, Discovery>) {
    forall x :: x in discoveries ==> discoveries[x].device.deviceId == x
  }

  lemma {:induction false} OneBirthFor(discoveries: map<string, Discovery>, order: seq<string>, outcomes: seq<bool>,
                                       device: string)
    requires |outcomes| == |order| && OwnIds(discoveries)
    requires forall i :: 0 <= i < |order| ==> order[i] in discoveries
    requires forall i, j :: 0 <= i < j < |order| ==> order[i] != order[j]
    ensures BirthsFor(Births(discoveries, order, outcomes), device) <= 1
  {
    if order != [] {
      var rest := order[1..];
      assert Births(discoveries, order, outcomes)[1..] == Births(discoveries, rest, outcomes[1..]);
      if order[0] == device {
        assert forall i :: 0 <= i < |rest| ==> rest[i] == order[i + 1];
        NoBirthFor(discoveries, rest, outcomes[1..], device);
      } else {
        OneBirthFor(discoveries, rest, outcomes[1..], device);
      }
    }
  }

  /** Each rebirth begun brings a device at most one birth, which is pending, on the wire, delivered or lost. */
  ghost predicate BirthsCovered(device: string, s: System, h: History, t: Tally) {
    && OwnIds(s.publisher.discoveries)
    && h.rebirths + RebornIn(s.wire, device) + BirthsFor(s.pending, device) <= t.begun
  }

  lemma SendCovers(node: Node, device: string, s: System, a: Attempt)
    ensures RebornIn(Send(node, s, a).wire, device) == RebornIn(s.wire, device)
    ensures Send(node, s, a).publisher == s.publisher && Send(node, s, a).pending == s.pending
  {
    if Send(node, s, a).wire != s.wire {
      RebornAppended(s.wire, Send(node, s, a).wire[|s.wire|], device);
    }
  }

  lemma NextRebirthCovers(node: Node, device: string, s: System, h: History, t: Tally)
    requires BirthsCovered(device, s, h, t) && s.pending != []
    ensures BirthsCovered(device, Step(node, s, NextRebirth), h, t)
  {
    var sent := RebirthPacket(node, s.pending[0]);
    if sent == [] {
      assert s.wire + sent == s.wire;
    } else {
      assert sent == [sent[0]];
      RebornAppended(s.wire, sent[0], device);
    }
  }

  lemma AnnounceCovers(node: Node, device: string, s: System, h: History, t: Tally, d: Discovery, nbirthOk: bool,
                       ok: bool)
    requires BirthsCovered(device, s, h, t)
    ensures BirthsCovered(device, Step(node, s, Announce(d, nbirthOk, ok)), h, t)
  {
    var (p, sent) := PublishDiscovery(s.publisher, d, nbirthOk, ok);
    SendCovers(node, device, s.(publisher := p), sent[|sent| - 1]);
  }

  lemma BeginCovers(node: Node, device: string, s: System, h: History, t: Tally, order: seq<string>, nbirthOk: bool,
                    outcomes: seq<bool>)
    requires BirthsCovered(device, s, h, t) && Begins(s, order, outcomes)
    ensures BirthsCovered(device, Step(node, s, BeginRebirth(order, nbirthOk, outcomes)), h, t.(begun := t.begun + 1))
  {
    OneBirthFor(s.publisher.discoveries, order, outcomes, device);
  }

  lemma DeliverCovers(node: Node, device: string, s: System, h: History, t: Tally, ncmdOk: bool)
    requires BirthsCovered(device, s, h, t) && s.wire != [] && PacketFits(node, device, h.log, s.wire[0])
    ensures BirthsCovered(device, Step(node, s, Deliver(ncmdOk)), Observe(node, device, s, h, Deliver(ncmdOk)),
                          Count(node, s, t, Deliver(ncmdOk)))
  {
    if s.wire[0].message.key == KeyOf(node, device) {
      StreamOwner(node, device, h.log, s.wire[0]);
    }
  }

  lemma SameRebirths(device: string, s: System, h: History, h': History, t: Tally)
    requires BirthsCovered(device, s, h, t) && h'.rebirths == h.rebirths
    ensures BirthsCovered(device, s, h', t)
  {
  }

  lemma StepCovers(node: Node, device: string, s: System, h: History, t: Tally, a: Action)
    requires BirthsCovered(device, s, h, t)
    requires forall i :: 0 <= i < |s.wire| ==> PacketFits(node, device, h.log, s.wire[i])
    ensures BirthsCovered(device, Step(node, s, a), Observe(node, device, s, h, a), Count(node, s, t, a))
  {
    match a
    case Announce(d, nbirthOk, ok) =>
      AnnounceCovers(node, device, s, h, t, d, nbirthOk, ok);
      SameRebirths(device, Step(node, s, a), h, Observe(node, device, s, h, a), t);
    case Report(id, ok) =>
      var (p, sent) := PublishState(s.publisher, id, ok);
      SendCovers(node, device, s.(publisher := p), sent[0]);
    case BeginRebirth(order, nbirthOk, outcomes) =>
      if Begins(s, order, outcomes) {
        BeginCovers(node, device, s, h, t, order, nbirthOk, outcomes);
      }
    case NextRebirth =>
      if s.pending != [] {
        NextRebirthCovers(node, device, s, h, t);
      }
    case Inject(m) => RebornAppended(s.wire, Packet(m, Foreign), device);
    case Lose(i) =>
      if i < |s.wire| {
        RebornRemoved(s.wire, i, device);
      }
    case Deliver(ncmdOk) =>
      if s.wire != [] {
        DeliverCovers(node, device, s, h, t, ncmdOk);
      }
    case _ =>
  }

  lemma {:induction false} RunCovers(node: Node, device: string, actions: seq<Action>)
    requires Alone(node, device, actions)
    ensures BirthsCovered(device, After(node, actions), Watch(node, device, actions), Tallied(node, actions))
  {
    if actions != [] {
      var before := actions[..|actions| - 1];
      RunKeeps(node, device, before);
      RunCovers(node, device, before);
      StepCovers(node, device, After(node, before), Watch(node, device, before), Tallied(node, before),
                 actions[|actions| - 1]);
    }
  }

  ghost predicate PacedBound(node: Node, device: string, actions: seq<Action>) {
    var h := Watch(node, device, actions);
    h.mismatches <= Gaps(h.log) + Tallied(node, actions).hosted + 1 + After(node, actions).now / REBIRTH_COOLDOWN_MS
  }

  /**
   * In every run in which nothing else sends on a device's stream, the mismatches found there number at
   * most its loss gaps, plus the requests of other hosts, plus one per cooldown that has passed, plus one.
   */
  lemma FeedbackBound(node: Node, device: string, actions: seq<Action>)
    requires Alone(node, device, actions)
    ensures PacedBound(node, device, actions)
  {
    MismatchBound(node, device, actions);
    RunCovers(node, device, actions);
    RebirthsAnswerRequests(node, actions);
  }

  // ---- The same for a whole fleet ----

  /** Two members with one stream, and no time passing: the other's first report disturbs this one's twice. */
  function Crossing(node: Node, x: string, other: Member): seq<Action> {
    [Report(x, true), Report(x, true), FirstReport(node, other), Report(x, true), Deliver(true), Deliver(true),
     Deliver(true), Deliver(true)]
  }

  lemma {:induction false} CrossingSent(node: Node, x: string, other: Member)
    requires other != (node, x) && StreamOf(other) == KeyOf(node, x)
    ensures var s := After(node, Crossing(node, x, other)[..4]);
      && s.ingest == SparkplugIngest.FRESH && |s.wire| == 4
      && s.wire[0].message == Data(KeyOf(node, x), Some(0))
      && s.wire[1].message == Data(KeyOf(node, x), Some(1))
      && s.wire[2].message == Data(KeyOf(node, x), Some(0))
      && s.wire[3].message == Data(KeyOf(node, x), Some(2))
    ensures Watch(node, x, Crossing(node, x, other)[..4]).mismatches == 0
  {
    var before := Collision(node, x, other)[..3];
    assert Crossing(node, x, other)[..4] == before + [Report(x, true)];
    CollisionSent(node, x, other);
    Reported(node, x, before, x);
  }

  lemma {:induction false} CrossingMismatches(node: Node, x: string, other: Member)
    requires other != (node, x) && StreamOf(other) == KeyOf(node, x)
    ensures Watch(node, x, Crossing(node, x, other)).mismatches == 2
  {
    CrossingSent(node, x, other);
    var c, d := Crossing(node, x, other)[..4], Deliver(true);
    assert Crossing(node, x, other) == c + [d] + [d] + [d] + [d];
    Delivered(node, x, c, 0);
    Delivered(node, x, c + [d], 1);
    Delivered(node, x, c + [d] + [d], 0);
    Delivered(node, x, c + [d] + [d] + [d], 2);
  }

  /** Without waits and other hosts' requests neither time nor their count moves. */
  lemma {:induction false} NoTimePasses(node: Node, actions: seq<Action>)
    requires forall i :: 0 <= i < |actions| ==> !actions[i].Wait? && !actions[i].HostRequest?
    ensures After(node, actions).now == 0 && Tallied(node, actions).hosted == 0
  {
    if actions != [] {
      NoTimePasses(node, actions[..|actions| - 1]);
    }
  }

  lemma CrossingIsQuiet(node: Node, x: string, other: Member, fleet: set<Member>)
    requires (node, x) in fleet && other in fleet
    ensures Quiet(node, fleet, Crossing(node, x, other))
  {
    var actions := Crossing(node, x, other);
    forall i | 0 <= i < |actions|
      ensures LossFree(node, fleet, actions[i])
    {
      if i == 2 && other.0 != node {
        assert FromOthers(node, fleet, actions[i].message);
      }
    }
  }

  lemma CrossingUnbounded(node: Node, x: string, other: Member, fleet: set<Member>)
    requires (node, x) in fleet && other in fleet && other != (node, x) && StreamOf(other) == KeyOf(node, x)
    ensures FleetRun(node, fleet, Crossing(node, x, other)) && !PacedBound(node, x, Crossing(node, x, other))
  {
    var actions := Crossing(node, x, other);
    CrossingMismatches(node, x, other);
    CrossingIsQuiet(node, x, other, fleet);
    QuietIsFleetRun(node, fleet, actions);
    QuietLeavesNoGap(node, x, fleet, actions);
    NoMissedNoGaps(Watch(node, x, actions).log);
    NoTimePasses(node, actions);
  }

  /**
   * The paced bound holds for every device in every run of a fleet, over any number of edge nodes,
   * exactly when no two of its devices share a stream.
   */
  lemma FeedbackFleetTheorem(fleet: set<Member>)
    ensures DistinctStreams(fleet)
       <==> forall node, device, actions :: (node, device) in fleet && FleetRun(node, fleet, actions) ==>
              PacedBound(node, device, actions)
  {
    if DistinctStreams(fleet) {
      forall node, device, actions | (node, device) in fleet && FleetRun(node, fleet, actions)
        ensures PacedBound(node, device, actions)
      {
        FleetRunAlone(node, device, fleet, actions);
        FeedbackBound(node, device, actions);
      }
    } else {
      var a, b :| a in fleet && b in fleet && StreamOf(a) == StreamOf(b) && a != b;
      assert (a.0, a.1) == a;
      CrossingUnbounded(a.0, a.1, b, fleet);
    }
  }

  // ---- One device alone, every request answered at once ----

  type Moment = (System, History)

  ghost function Go(node: Node, id: string, x: Moment, a: Action): Moment {
    (Step(node, x.0, a), Observe(node, id, x.0, x.1, a))
  }

  ghost function AtEnd(node: Node, id: string, actions: seq<Action>): Moment {
    (After(node, actions), Watch(node, id, actions))
  }

  /** A report that arrives. */
  ghost function Exchange(node: Node, id: string, x: Moment): Moment {
    Go(node, id, Go(node, id, x, Report(id, true)), Deliver(true))
  }

  /** The rebirth that a request leads to, if there is one. */
  ghost function Answer(node: Node, id: string, x: Moment): Moment {
    Go(node, id, Go(node, id, Go(node, id, x, BeginRebirth([id], true, [true])), NextRebirth), Deliver(true))
  }

  ghost function Cycle(node: Node, id: string, x: Moment, w: nat): Moment {
    Go(node, id, Answer(node, id, Exchange(node, id, x)), Wait(w))
  }

  function Answering(before: seq<Action>, id: string): seq<Action> {
    before + [BeginRebirth([id], true, [true])] + [NextRebirth] + [Deliver(true)]
  }

  function CycleAfter(before: seq<Action>, id: string, w: nat): seq<Action> {
    Answering(before + [Report(id, true)] + [Deliver(true)], id) + [Wait(w)]
  }

  /** Cycles of a report, the rebirth it may lead to, and a wait. */
  function Cycles(before: seq<Action>, id: string, ws: seq<nat>): seq<Action> {
    if ws == [] then before else CycleAfter(Cycles(before, id, ws[..|ws| - 1]), id, ws[|ws| - 1])
  }

  lemma ExchangeRun(node: Node, id: string, before: seq<Action>)
    ensures AtEnd(node, id, before + [Report(id, true)] + [Deliver(true)])
         == Exchange(node, id, AtEnd(node, id, before))
  {
    AfterStep(node, id, before, Report(id, true));
    AfterStep(node, id, before + [Report(id, true)], Deliver(true));
  }

  lemma AnswerRun(node: Node, id: string, before: seq<Action>)
    ensures AtEnd(node, id, Answering(before, id)) == Answer(node, id, AtEnd(node, id, before))
  {
    var b := BeginRebirth([id], true, [true]);
    AfterStep(node, id, before, b);
    AfterStep(node, id, before + [b], NextRebirth);
    AfterStep(node, id, before + [b] + [NextRebirth], Deliver(true));
  }

  /**
   * What the ingest adapter expects next: the number that comes next, or a given one; then a request for
   * another rebirth may still be cooling down.
   */
  datatype Stage = Settled | Expecting(number: Byte, cooling: bool)

  predicate Off(k: nat, stage: Stage) {
    stage.Expecting? && stage.number != k % 256
  }

  predicate Asks(k: nat, stage: Stage) {
    Off(k, stage) && !stage.cooling
  }

  /** The stage after a report of number `k`, the rebirth it may lead to, and a wait. */
  function NextStage(k: nat, stage: Stage, w: nat): Stage {
    if Asks(k, stage) then Expecting(1, w < REBIRTH_COOLDOWN_MS) else Settled
  }

  /** Between reports, with `k` numbers taken. */
  ghost predicate Idle(node: Node, d: Discovery, x: Moment, k: nat, stage: Stage) {
    var (s, id) := (x.0, d.device.deviceId);
    && s.publisher.discoveries == map[id := d]
    && Current(s.publisher.sequence, id) == k % 256
    && Current(s.taken, id) == k == |x.1.log|
    && s.requests == 0 && s.pending == [] && s.wire == []
    && KeyOf(node, id) in s.ingest.expected
    && match stage
       case Settled => s.ingest.expected[KeyOf(node, id)] == k % 256
       case Expecting(e, cooling) =>
         s.ingest.expected[KeyOf(node, id)] == e && CoolingDown(s.ingest.lastRequest, EdgeOf(node), s.now) == cooling
  }

  lemma SentReport(node: Node, id: string, x: Moment)
    requires x.0.wire == [] && |x.1.log| == Current(x.0.taken, id)
    ensures var y := Go(node, id, x, Report(id, true));
      && y.0 == Reporting(node, x.0, id) && y.1 == x.1.(log := x.1.log + [InFlight])
      && y.0.wire == [Packet(Data(KeyOf(node, id), Some(Current(x.0.publisher.sequence, id))),
                             Numbered(id, |x.1.log|))]
  {
    ReportStep(node, x.0, id);
  }

  /**
   * A report in an idle node: a mismatch when another number was expected, and then a request unless one is
   * cooling down.
   */
  lemma ExchangeOne(node: Node, d: Discovery, x: Moment, k: nat, stage: Stage)
    requires Idle(node, d, x, k, stage)
    ensures var (id, asks) := (d.device.deviceId, Asks(k, stage));
      var (s, s') := (x.0, Exchange(node, id, x).0);
      && s'.publisher == s.publisher.(sequence := Advance(s.publisher.sequence, id))
      && s'.taken == s.taken[id := k + 1]
      && s'.pending == [] && s'.wire == [] && s'.now == s.now && s'.requests == (if asks then 1 else 0)
      && s'.ingest == IngestState(s.ingest.expected[KeyOf(node, id) := (k + 1) % 256],
                                  if asks then s.ingest.lastRequest[EdgeOf(node) := s.now] else s.ingest.lastRequest)
    ensures var (h, h') := (x.1, Exchange(node, d.device.deviceId, x).1);
      && h'.log == h.log + [Read] && h'.rebirths == h.rebirths
      && h'.mismatches == h.mismatches + if Off(k, stage) then 1 else 0
  {
    var id := d.device.deviceId;
    var y := Go(node, id, x, Report(id, true));
    SentReport(node, id, x);
    WrapIsResidue(k);
    assert y.0.wire[1..] == [];
    assert Edge(KeyOf(node, id)) == EdgeOf(node);
    assert (x.1.log + [InFlight])[k := Read] == x.1.log + [Read];
  }

  lemma AnswerNone(node: Node, id: string, x: Moment)
    requires x.0.requests == 0 && x.0.pending == [] && x.0.wire == []
    ensures Answer(node, id, x) == x
  {
  }

  /** A waiting request is answered by one birth with number 0, and 1 is expected next. */
  lemma AnswerOne(node: Node, d: Discovery, x: Moment)
    requires x.0.requests == 1 && x.0.pending == [] && x.0.wire == []
    requires x.0.publisher.discoveries == map[d.device.deviceId := d] && d.capabilities != []
    ensures var (id, s) := (d.device.deviceId, x.0);
      Answer(node, id, x).0
      == s.(requests := 0, ingest := s.ingest.(expected := s.ingest.expected[KeyOf(node, id) := 1]))
    ensures var (h, h') := (x.1, Answer(node, d.device.deviceId, x).1);
      h'.log == h.log && h'.mismatches == h.mismatches && h'.rebirths == h.rebirths + 1
  {
    var id := d.device.deviceId;
    var y := Go(node, id, x, BeginRebirth([id], true, [true]));
    assert Walks([id], map[id := d]);
    assert y.0 == x.0.(requests := 0, pending := [DeviceBirth(d, 0, true)]) && y.1 == x.1;
    var z := Go(node, id, y, NextRebirth);
    assert z.0.pending == [] && z.1 == x.1;
    assert z.0.wire == [Packet(Birth(KeyOf(node, id), Some(0), true), Reborn(id))];
    assert z.0.wire[1..] == [];
  }

  lemma WaitOne(node: Node, id: string, x: Moment, w: nat)
    ensures Go(node, id, x, Wait(w)) == (x.0.(now := x.0.now + w), x.1)
  {
  }

  /** The state after an answered report is idle again. */
  lemma AnsweredIsIdle(node: Node, d: Discovery, x: Moment, y: Moment, k: nat, stage: Stage, w: nat)
    requires Idle(node, d, x, k, stage) && Asks(k, stage)
    requires var (id, s) := (d.device.deviceId, x.0);
      && y.0.publisher == s.publisher.(sequence := Advance(s.publisher.sequence, id))
      && y.0.taken == s.taken[id := k + 1] && y.0.requests == 0 && y.0.pending == [] && y.0.wire == []
      && y.0.now == s.now + w && |y.1.log| == k + 1
      && y.0.ingest.lastRequest == s.ingest.lastRequest[EdgeOf(node) := s.now]
      && KeyOf(node, id) in y.0.ingest.expected && y.0.ingest.expected[KeyOf(node, id)] == 1
    ensures Idle(node, d, y, k + 1, NextStage(k, stage, w))
  {
    NextResidue(k);
  }

  /** A report that is answered by a rebirth. */
  lemma CycleAnswered(node: Node, d: Discovery, x: Moment, k: nat, stage: Stage, w: nat)
    requires Idle(node, d, x, k, stage) && d.capabilities != [] && Asks(k, stage)
    ensures var (h, y) := (x.1, Cycle(node, d.device.deviceId, x, w));
      && Idle(node, d, y, k + 1, NextStage(k, stage, w)) && y.1.log == h.log + [Read]
      && y.1.mismatches == h.mismatches + (if Off(k, stage) then 1 else 0) && y.1.rebirths == h.rebirths + 1
  {
    var id := d.device.deviceId;
    var y := Exchange(node, id, x);
    ExchangeOne(node, d, x, k, stage);
    AnswerOne(node, d, y);
    WaitOne(node, id, Answer(node, id, y), w);
    AnsweredIsIdle(node, d, x, Cycle(node, id, x, w), k, stage, w);
  }

  /** A report that brings no request. */
  lemma CycleUnanswered(node: Node, d: Discovery, x: Moment, k: nat, stage: Stage, w: nat)
    requires Idle(node, d, x, k, stage) && !Asks(k, stage)
    ensures var (h, y) := (x.1, Cycle(node, d.device.deviceId, x, w));
      && Idle(node, d, y, k + 1, NextStage(k, stage, w)) && y.1.log == h.log + [Read]
      && y.1.mismatches == h.mismatches + (if Off(k, stage) then 1 else 0) && y.1.rebirths == h.rebirths
  {
    ExchangeOne(node, d, x, k, stage);
    NextResidue(k);
    AnswerNone(node, d.device.deviceId, Exchange(node, d.device.deviceId, x));
  }

  lemma CycleOne(node: Node, d: Discovery, x: Moment, k: nat, stage: Stage, w: nat)
    requires Idle(node, d, x, k, stage) && d.capabilities != []
    ensures var (h, y) := (x.1, Cycle(node, d.device.deviceId, x, w));
      && Idle(node, d, y, k + 1, NextStage(k, stage, w))
      && y.1.log == h.log + [Read]
      && y.1.mismatches == h.mismatches + (if Off(k, stage) then 1 else 0)
      && y.1.rebirths == h.rebirths + if Asks(k, stage) then 1 else 0
  {
    if Asks(k, stage) {
      CycleAnswered(node, d, x, k, stage, w);
    } else {
      CycleUnanswered(node, d, x, k, stage, w);
    }
  }

  // ---- Counting mismatches over cycles ----

  /** The mismatches and the requests of cycles from number `k`, and the stage they leave. */
  function Missteps(k: nat, stage: Stage, ws: seq<nat>): (nat, nat, Stage) {
    if ws == [] then (0, 0, stage)
    else
      var n := |ws| - 1;
      var (off, asked, last) := Missteps(k, stage, ws[..n]);
      (off + (if Off(k + n, last) then 1 else 0), asked + (if Asks(k + n, last) then 1 else 0),
       NextStage(k + n, last, ws[n]))
  }

  /** How far `k` is from the next number that is 1 mod 256. */
  function Distance(k: nat): nat {
    (257 - k % 256) % 256
  }

  lemma NextOne(k: nat, m: nat)
    requires m <= Distance(k)
    ensures (k + m) % 256 == 1 <==> m == Distance(k)
  {
    var r := k % 256;
    assert Distance(k) == if r <= 1 then 1 - r else 257 - r;
    assert (k + m) % 256 == (r + m) % 256;
  }

  lemma DistanceStep(k: nat)
    requires k % 256 != 1
    ensures Distance(k) == 1 + Distance(k + 1)
  {
    var r := k % 256;
    assert (k + 1) % 256 == if r == 255 then 0 else r + 1;
  }

  function Min(a: nat, b: nat): nat {
    if a <= b then a else b
  }

  /** How many waits, from the first one on, are at least a cooldown long. */
  function Streak(ws: seq<nat>): (s: nat)
    ensures s <= |ws|
  {
    if ws == [] then 0
    else
      var n := |ws| - 1;
      var s := Streak(ws[..n]);
      if s == n && ws[n] >= REBIRTH_COOLDOWN_MS then n + 1 else s
  }

  /** The first cycle whose report is not a mismatch, when every cycle before it brings on a rebirth. */
  function FirstMatch(k: nat, e: Byte): nat {
    if e == k % 256 then 0 else 1 + Distance(k + 1)
  }

  function StageAfter(m: nat, first: nat, streak: nat, e: Byte): Stage {
    if m == 0 then Expecting(e, false)
    else if m > first then Settled
    else if streak == m then Expecting(1, false)
    else if streak + 1 == m then Expecting(1, true)
    else Settled
  }

  /** Whether the report after `m` cycles is a mismatch. */
  lemma OffAfter(k: nat, e: Byte, m: nat, streak: nat)
    ensures var stage := StageAfter(m, FirstMatch(k, e), streak, e);
      stage.Expecting? ==> (Off(k + m, stage) <==> m < FirstMatch(k, e))
  {
    if 0 < m <= FirstMatch(k, e) {
      NextOne(k + 1, m - 1);
      assert k + 1 + (m - 1) == k + m;
    }
  }

  /**
   * The loop feeds itself until a number matches or a report comes too soon after a request: then that
   * report is one more mismatch, but asks for nothing, and all is well afterwards.
   */
  lemma {:induction false} MisstepsCount(k: nat, e: Byte, ws: seq<nat>)
    ensures var (m, first, streak) := (|ws|, FirstMatch(k, e), Streak(ws));
      Missteps(k, Expecting(e, false), ws)
      == (Min(Min(m, first), 2 + streak), Min(Min(m, first), 1 + streak), StageAfter(m, first, streak, e))
  {
    if ws != [] {
      var n := |ws| - 1;
      MisstepsCount(k, e, ws[..n]);
      OffAfter(k, e, n, Streak(ws[..n]));
    }
  }

  function Reads(n: nat): seq<Fate> {
    seq(n, _ => Read)
  }

  /** An idle node with this log and these counts. */
  ghost predicate Reached(node: Node, d: Discovery, x: Moment, k: nat, stage: Stage, log: seq<Fate>, mismatches: nat,
                          rebirths: nat)
  {
    Idle(node, d, x, k, stage) && x.1.log == log && x.1.mismatches == mismatches && x.1.rebirths == rebirths
  }

  lemma CycleReached(node: Node, d: Discovery, x: Moment, k: nat, stage: Stage, log: seq<Fate>, m: nat, r: nat, w: nat)
    requires Reached(node, d, x, k, stage, log, m, r) && d.capabilities != []
    ensures Reached(node, d, Cycle(node, d.device.deviceId, x, w), k + 1, NextStage(k, stage, w), log + [Read],
                    m + (if Off(k, stage) then 1 else 0), r + if Asks(k, stage) then 1 else 0)
  {
    CycleOne(node, d, x, k, stage, w);
  }

  lemma CycleRun(node: Node, id: string, before: seq<Action>, w: nat)
    ensures AtEnd(node, id, CycleAfter(before, id, w)) == Cycle(node, id, AtEnd(node, id, before), w)
  {
    var reported := before + [Report(id, true)] + [Deliver(true)];
    ExchangeRun(node, id, before);
    AnswerRun(node, id, reported);
    AfterStep(node, id, Answering(reported, id), Wait(w));
  }

  lemma ReadsMore(log: seq<Fate>, n: nat)
    ensures log + Reads(n + 1) == log + Reads(n) + [Read]
  {
  }

  /** What a predicate on runs must keep over a cycle for `Missteps` to count its mismatches. */
  ghost predicate KeptByCycles(id: string, at: (seq<Action>, nat, Stage, seq<Fate>, nat, nat) -> bool) {
    forall run: seq<Action>, k: nat, stage: Stage, log: seq<Fate>, m: nat, r: nat, w: nat ::
      at(run, k, stage, log, m, r) ==>
        at(CycleAfter(run, id, w), k + 1, NextStage(k, stage, w), log + [Read],
           m + (if Off(k, stage) then 1 else 0), r + if Asks(k, stage) then 1 else 0)
  }

  lemma {:induction false} CyclesKeep(id: string, at: (seq<Action>, nat, Stage, seq<Fate>, nat, nat) -> bool,
                                      before: seq<Action>, k: nat, stage: Stage, log: seq<Fate>, r: nat, ws: seq<nat>)
    requires KeptByCycles(id, at) && at(before, k, stage, log, 0, r)
    ensures var (off, asked, last) := Missteps(k, stage, ws);
      at(Cycles(before, id, ws), k + |ws|, last, log + Reads(|ws|), off, r + asked)
  {
    if ws == [] {
      assert log + Reads(0) == log;
    } else {
      var n := |ws| - 1;
      CyclesKeep(id, at, before, k, stage, log, r, ws[..n]);
      ReadsMore(log, n);
    }
  }

  ghost function RunsOf(node: Node, d: Discovery): (seq<Action>, nat, Stage, seq<Fate>, nat, nat) -> bool {
    (run: seq<Action>, k: nat, stage: Stage, log: seq<Fate>, m: nat, r: nat) =>
      Reached(node, d, AtEnd(node, d.device.deviceId, run), k, stage, log, m, r)
  }

  lemma CycleReachedRun(node: Node, d: Discovery, run: seq<Action>, k: nat, stage: Stage, log: seq<Fate>, m: nat,
                        r: nat, w: nat)
    requires RunsOf(node, d)(run, k, stage, log, m, r) && d.capabilities != []
    ensures RunsOf(node, d)(CycleAfter(run, d.device.deviceId, w), k + 1, NextStage(k, stage, w), log + [Read],
                            m + (if Off(k, stage) then 1 else 0), r + if Asks(k, stage) then 1 else 0)
  {
    CycleRun(node, d.device.deviceId, run, w);
    CycleReached(node, d, AtEnd(node, d.device.deviceId, run), k, stage, log, m, r, w);
  }

  lemma KeptRuns(node: Node, d: Discovery)
    requires d.capabilities != []
    ensures KeptByCycles(d.device.deviceId, RunsOf(node, d))
  {
    forall run: seq<Action>, k: nat, stage: Stage, log: seq<Fate>, m: nat, r: nat, w: nat
      | RunsOf(node, d)(run, k, stage, log, m, r)
      ensures RunsOf(node, d)(CycleAfter(run, d.device.deviceId, w), k + 1, NextStage(k, stage, w), log + [Read],
                              m + (if Off(k, stage) then 1 else 0), r + if Asks(k, stage) then 1 else 0)
    {
      CycleReachedRun(node, d, run, k, stage, log, m, r, w);
    }
  }

  /** What a predicate on runs says of the histories that are told of them. */
  ghost predicate Tells(at: (seq<Action>, nat, Stage, seq<Fate>, nat, nat) -> bool, told: seq<Action> -> History) {
    forall run: seq<Action>, k: nat, stage: Stage, log: seq<Fate>, m: nat, r: nat :: at(run, k, stage, log, m, r) ==>
      told(run).log == log && told(run).mismatches == m && told(run).rebirths == r
  }

  lemma CountsTold(at: (seq<Action>, nat, Stage, seq<Fate>, nat, nat) -> bool, told: seq<Action> -> History,
                   run: seq<Action>, k: nat, e: Byte, log: seq<Fate>, r: nat, ws: seq<nat>)
    requires Tells(at, told)
    requires var (off, asked, last) := Missteps(k, Expecting(e, false), ws);
      at(run, k + |ws|, last, log, off, r + asked)
    ensures var storm := Min(|ws|, FirstMatch(k, e));
      && told(run).log == log
      && told(run).mismatches == Min(storm, 2 + Streak(ws)) && told(run).rebirths == r + Min(storm, 1 + Streak(ws))
  {
    MisstepsCount(k, e, ws);
  }

  lemma CyclesTold(id: string, at: (seq<Action>, nat, Stage, seq<Fate>, nat, nat) -> bool,
                   told: seq<Action> -> History, before: seq<Action>, k: nat, e: Byte, log: seq<Fate>, r: nat,
                   ws: seq<nat>)
    requires KeptByCycles(id, at) && Tells(at, told) && at(before, k, Expecting(e, false), log, 0, r)
    ensures var h := told(Cycles(before, id, ws));
      var storm := Min(|ws|, FirstMatch(k, e));
      && h.log == log + Reads(|ws|)
      && h.mismatches == Min(storm, 2 + Streak(ws)) && h.rebirths == r + Min(storm, 1 + Streak(ws))
  {
    CyclesKeep(id, at, before, k, Expecting(e, false), log, r, ws);
    CountsTold(at, told, Cycles(before, id, ws), k, e, log + Reads(|ws|), r, ws);
  }

  ghost function WatchOf(node: Node, d: Discovery): seq<Action> -> History {
    (run: seq<Action>) => Watch(node, d.device.deviceId, run)
  }

  lemma RunsTell(node: Node, d: Discovery)
    ensures Tells(RunsOf(node, d), WatchOf(node, d))
  {
  }

  lemma CyclesCount(node: Node, d: Discovery, before: seq<Action>, k: nat, e: Byte, log: seq<Fate>, r: nat,
                    ws: seq<nat>)
    requires RunsOf(node, d)(before, k, Expecting(e, false), log, 0, r) && d.capabilities != []
    ensures var h := WatchOf(node, d)(Cycles(before, d.device.deviceId, ws));
      var storm := Min(|ws|, FirstMatch(k, e));
      && h.log == log + Reads(|ws|)
      && h.mismatches == Min(storm, 2 + Streak(ws)) && h.rebirths == r + Min(storm, 1 + Streak(ws))
  {
    KeptRuns(node, d);
    RunsTell(node, d);
    CyclesTold(d.device.deviceId, RunsOf(node, d), WatchOf(node, d), before, k, e, log, r, ws);
  }

  function Announced(d: Discovery): seq<Action> {
    [] + [Announce(d, true, true)] + [Deliver(true)]
  }

  function Reports(before: seq<Action>, id: string, m: nat): seq<Action> {
    if m == 0 then before else Reports(before, id, m - 1) + [Report(id, true)] + [Deliver(true)]
  }

  /** One device announced, and then reporting until `n` numbers are taken, nothing lost. */
  function Intact(d: Discovery, n: nat): seq<Action>
    requires n >= 1
  {
    Reports(Announced(d), d.device.deviceId, n - 1)
  }

  ghost predicate IntactAt(node: Node, d: Discovery, run: seq<Action>, n: nat) {
    Reached(node, d, AtEnd(node, d.device.deviceId, run), n, Expecting(n % 256, false), Reads(n), 0, 0)
  }

  lemma FirstAnnouncement(node: Node, d: Discovery)
    requires d.capabilities != []
    ensures IntactAt(node, d, Announced(d), 1)
  {
    var id := d.device.deviceId;
    var a := Announce(d, true, true);
    AfterStep(node, id, [], a);
    AfterStep(node, id, [] + [a], Deliver(true));
    AnnouncedAlone(node, d);
    var x := Go(node, id, (START, BLANK), a);
    AnnouncementRead(node, d, x);
    assert Reads(1) == [Read];
    assert AtEnd(node, id, Announced(d)) == Go(node, id, x, Deliver(true));
  }

  lemma AnnouncedAlone(node: Node, d: Discovery)
    ensures Go(node, d.device.deviceId, (START, BLANK), Announce(d, true, true))
         == (START.(publisher := PublisherState(map[d.device.deviceId := 1], map[d.device.deviceId := d], true),
                    taken := map[d.device.deviceId := 1],
                    wire := [Packet(BirthMessage(node, d, 0), Numbered(d.device.deviceId, 0))]),
             BLANK.(log := [InFlight]))
  {
    var id := d.device.deviceId;
    var p := Packet(BirthMessage(node, d, 0), Numbered(id, 0));
    var y := Go(node, id, (START, BLANK), Announce(d, true, true)).0;
    assert y.publisher == PublisherState(map[id := 1], map[id := d], true);
    assert y.taken == map[id := 1];
    assert y.wire == [p];
    assert [] + [InFlight] == [InFlight];
  }

  lemma AnnouncementRead(node: Node, d: Discovery, x: Moment)
    requires d.capabilities != []
    requires x.0.publisher == PublisherState(map[d.device.deviceId := 1], map[d.device.deviceId := d], true)
    requires x.0.taken == map[d.device.deviceId := 1] && x.0.requests == 0 && x.0.pending == []
    requires x.0.wire == [Packet(BirthMessage(node, d, 0), Numbered(d.device.deviceId, 0))]
    requires x.0.ingest == SparkplugIngest.FRESH && x.1 == BLANK.(log := [InFlight])
    ensures Reached(node, d, Go(node, d.device.deviceId, x, Deliver(true)), 1, Expecting(1, false), [Read], 0, 0)
  {
    var y := Go(node, d.device.deviceId, x, Deliver(true));
    assert y.0.wire == [];
    assert [InFlight][0 := Read] == [Read];
    assert y.1 == History([Read], At(0), 0, 0);
    assert y.0.ingest.expected == map[KeyOf(node, d.device.deviceId) := 1];
  }

  lemma ExpectedReached(node: Node, d: Discovery, x: Moment, k: nat, log: seq<Fate>)
    requires Reached(node, d, x, k, Expecting(k % 256, false), log, 0, 0)
    ensures Reached(node, d, Exchange(node, d.device.deviceId, x), k + 1, Expecting((k + 1) % 256, false), log + [Read],
                    0, 0)
  {
    ExchangeOne(node, d, x, k, Expecting(k % 256, false));
    NextResidue(k);
  }

  lemma ExchangedFrom(node: Node, d: Discovery, x: Moment, y: Moment, n: nat)
    requires Reached(node, d, x, n, Expecting(n % 256, false), Reads(n), 0, 0)
    requires y == Exchange(node, d.device.deviceId, x)
    ensures Reached(node, d, y, n + 1, Expecting((n + 1) % 256, false), Reads(n + 1), 0, 0)
  {
    ExpectedReached(node, d, x, n, Reads(n));
    assert Reads(n + 1) == Reads(n) + [Read];
  }

  lemma ReportsNext(node: Node, d: Discovery, run: seq<Action>, n: nat)
    requires IntactAt(node, d, run, n)
    ensures IntactAt(node, d, run + [Report(d.device.deviceId, true)] + [Deliver(true)], n + 1)
  {
    var id := d.device.deviceId;
    ExchangeRun(node, id, run);
    ExchangedFrom(node, d, AtEnd(node, id, run), AtEnd(node, id, run + [Report(id, true)] + [Deliver(true)]), n);
  }

  ghost predicate KeptByReports(id: string, at: (seq<Action>, nat) -> bool) {
    forall run: seq<Action>, k: nat :: at(run, k) ==> at(run + [Report(id, true)] + [Deliver(true)], k + 1)
  }

  lemma {:induction false} ReportsKeep(id: string, at: (seq<Action>, nat) -> bool, before: seq<Action>, n: nat, m: nat)
    requires at(before, n) && KeptByReports(id, at)
    ensures at(Reports(before, id, m), n + m)
  {
    if m > 0 {
      ReportsKeep(id, at, before, n, m - 1);
    }
  }

  ghost function IntactRuns(node: Node, d: Discovery): (seq<Action>, nat) -> bool {
    (run: seq<Action>, k: nat) => IntactAt(node, d, run, k)
  }

  lemma ReportsIntact(node: Node, d: Discovery)
    ensures KeptByReports(d.device.deviceId, IntactRuns(node, d))
  {
    var id := d.device.deviceId;
    forall run: seq<Action>, k: nat | IntactRuns(node, d)(run, k)
      ensures IntactRuns(node, d)(run + [Report(id, true)] + [Deliver(true)], k + 1)
    {
      ReportsNext(node, d, run, k);
    }
  }

  lemma IntactRun(node: Node, d: Discovery, run: seq<Action>, n: nat)
    ensures IntactRuns(node, d)(run, n) <==> IntactAt(node, d, run, n)
  {
  }

  lemma FirstIntact(node: Node, d: Discovery)
    requires d.capabilities != []
    ensures IntactRuns(node, d)(Announced(d), 1)
  {
    FirstAnnouncement(node, d);
    IntactRun(node, d, Announced(d), 1);
  }

  lemma IntactFrom(d: Discovery, at: (seq<Action>, nat) -> bool, n: nat)
    requires at(Announced(d), 1) && KeptByReports(d.device.deviceId, at) && n >= 1
    ensures at(Intact(d, n), n)
  {
    ReportsKeep(d.device.deviceId, at, Announced(d), 1, n - 1);
  }

  lemma IntactIdle(node: Node, d: Discovery, n: nat)
    requires d.capabilities != [] && n >= 1
    ensures IntactAt(node, d, Intact(d, n), n)
  {
    FirstIntact(node, d);
    ReportsIntact(node, d);
    IntactFrom(d, IntactRuns(node, d), n);
    IntactRun(node, d, Intact(d, n), n);
  }

  function LostReport(d: Discovery, n: nat): seq<Action>
    requires n >= 1
  {
    Intact(d, n) + [Report(d.device.deviceId, false)]
  }

  lemma LostReportIdle(node: Node, d: Discovery, n: nat)
    requires d.capabilities != [] && n >= 1
    ensures Reached(node, d, AtEnd(node, d.device.deviceId, LostReport(d, n)), n + 1, Expecting(n % 256, false),
                    Reads(n) + [Lost], 0, 0)
  {
    IntactIdle(node, d, n);
    AfterStep(node, d.device.deviceId, Intact(d, n), Report(d.device.deviceId, false));
    NextResidue(n);
  }

  lemma LossIsOff(n: nat)
    ensures FirstMatch(n + 1, n % 256) == 1 + Distance(n + 2)
  {
    assert n % 256 != (n + 1) % 256;
  }

  /**
   * One lost report, and then reports after any waits: each is a mismatch and brings on a rebirth, until
   * a number is 1 mod 256 or a wait is shorter than the cooldown; the report after such a wait is the
   * last mismatch. So one loss costs up to 255 mismatches after its own.
   */
  lemma OneLossStorm(node: Node, d: Discovery, n: nat, ws: seq<nat>)
    requires d.capabilities != [] && n >= 1
    ensures var h := Watch(node, d.device.deviceId, Cycles(LostReport(d, n), d.device.deviceId, ws));
      var storm := Min(|ws|, 1 + Distance(n + 2));
      && h.log == Reads(n) + [Lost] + Reads(|ws|)
      && h.mismatches == Min(storm, 2 + Streak(ws)) && h.rebirths == Min(storm, 1 + Streak(ws))
  {
    LostReportIdle(node, d, n);
    CyclesCount(node, d, LostReport(d, n), n + 1, n % 256, Reads(n) + [Lost], 0, ws);
    LossIsOff(n);
  }

  /** A rebirth of the intact node that another host asks for. */
  function HostRebirth(d: Discovery, n: nat): seq<Action>
    requires n >= 1
  {
    Answering(Intact(d, n) + [HostRequest], d.device.deviceId)
  }

  lemma HostRebirthIdle(node: Node, d: Discovery, n: nat)
    requires d.capabilities != [] && n >= 1
    ensures Reached(node, d, AtEnd(node, d.device.deviceId, HostRebirth(d, n)), n, Expecting(1, false), Reads(n), 0, 1)
  {
    var id := d.device.deviceId;
    IntactIdle(node, d, n);
    AfterStep(node, id, Intact(d, n), HostRequest);
    AnswerRun(node, id, Intact(d, n) + [HostRequest]);
    AnswerOne(node, d, AtEnd(node, id, Intact(d, n) + [HostRequest]));
  }

  lemma RebirthIsOff(n: nat)
    ensures FirstMatch(n, 1) == Distance(n)
  {
    if n % 256 != 1 {
      DistanceStep(n);
    }
  }

  /** The same with nothing lost at all: one rebirth of an intact node is enough. */
  lemma HostRebirthStorm(node: Node, d: Discovery, n: nat, ws: seq<nat>)
    requires d.capabilities != [] && n >= 1
    ensures var h := Watch(node, d.device.deviceId, Cycles(HostRebirth(d, n), d.device.deviceId, ws));
      var storm := Min(|ws|, Distance(n));
      && h.log == Reads(n + |ws|)
      && h.mismatches == Min(storm, 2 + Streak(ws)) && h.rebirths == 1 + Min(storm, 1 + Streak(ws))
  {
    HostRebirthIdle(node, d, n);
    CyclesCount(node, d, HostRebirth(d, n), n, 1, Reads(n), 1, ws);
    RebirthIsOff(n);
    assert Reads(n + |ws|) == Reads(n) + Reads(|ws|);
  }

  /**
   * The bound on mismatches is reached: with nothing lost, one rebirth makes the very next report a
   * mismatch, unless its number is 1 mod 256.
   */
  lemma RebirthDisturbs(node: Node, d: Discovery, n: nat)
    requires d.capabilities != [] && n >= 1
    ensures var id := d.device.deviceId;
      var h := Watch(node, id, HostRebirth(d, n) + [Report(id, true)] + [Deliver(true)]);
      h.rebirths == 1 && Gaps(h.log) == 0 && h.mismatches == if n % 256 == 1 then 0 else 1
  {
    var id := d.device.deviceId;
    HostRebirthIdle(node, d, n);
    ExchangeRun(node, id, HostRebirth(d, n));
    ExchangeOne(node, d, AtEnd(node, id, HostRebirth(d, n)), n, Expecting(1, false));
    NoMissedNoGaps(Reads(n) + [Read]);
  }
}
