/**
 * Reference-counted availability subscriptions of the Home Assistant ingest adapter: which topic each
 * discovery key uses, how many keys use each topic, and the node each topic speaks for.
 */
module Availability {
  import opened Wrappers
  import opened Runs

  type Key = string
  type Topic = string

  datatype Tables = Tables(topicOf: map<Key, Topic>, refs: map<Topic, nat>, nodeOf: map<Topic, string>)

  const EMPTY: Tables := Tables(map[], map[], map[])

  /** A request to the MQTT client and whether it succeeded. */
  datatype Call = Subscribe(topic: Topic, ok: bool) | Unsubscribe(topic: Topic, ok: bool)

  function RefCount(refs: map<Topic, nat>, topic: Topic): nat {
    if topic in refs then refs[topic] else 0
  }

  /** What `subscribe_availability_topic` does, and whether it returns true. */
  function Acquire(t: Tables, topic: Topic, node: string, ok: bool): (Tables, seq<Call>, bool) {
    var n := RefCount(t.refs, topic);
    if n == 0 && !ok then (t, [Subscribe(topic, false)], false)
    else (t.(nodeOf := if n == 0 then t.nodeOf[topic := node] else t.nodeOf, refs := t.refs[topic := n + 1]),
          if n == 0 then [Subscribe(topic, true)] else [], true)
  }

  /** What `unsubscribe_availability_topic` does. */
  function Release(t: Tables, topic: Topic, ok: bool): (Tables, seq<Call>) {
    if topic !in t.refs then (t, [])
    else if t.refs[topic] > 1 then (t.(refs := t.refs[topic := t.refs[topic] - 1]), [])
    else (t.(refs := t.refs - {topic}, nodeOf := t.nodeOf - {topic}), [Unsubscribe(topic, ok)])
  }

  function TopicOf(t: Tables, key: Key): Option<Topic> {
    if key in t.topicOf then Some(t.topicOf[key]) else None
  }

  /** A discovery or tombstone on the bus, with the outcomes of the client calls it may cause. */
  datatype Event =
    | Discovered(key: Key, node: string, next: Option<Topic>, subOk: bool, unsubOk: bool)
    | Withdrawn(key: Key, unsubOk: bool)

  /** Forgetting a key: its topic is released if it had one. */
  function Forget(t: Tables, key: Key, ok: bool): (Tables, seq<Call>) {
    if key !in t.topicOf then (t, []) else Release(t.(topicOf := t.topicOf - {key}), t.topicOf[key], ok)
  }

  /** Moving a key to a topic it does not use yet. */
  function Switch(t: Tables, key: Key, node: string, next: Topic, subOk: bool, unsubOk: bool): (Tables, seq<Call>) {
    var (t1, calls, acquired) := Acquire(t, next, node, subOk);
    if !acquired then (t, calls)
    else
      var t2 := t1.(topicOf := t1.topicOf[key := next]);
      if key !in t.topicOf then (t2, calls)
      else
        var (t3, more) := Release(t2, t.topicOf[key], unsubOk);
        (t3, calls + more)
  }

  function Process(t: Tables, e: Event): (Tables, seq<Call>) {
    match e
    case Withdrawn(key, ok) => Forget(t, key, ok)
    case Discovered(key, node, next, subOk, unsubOk) =>
      if TopicOf(t, key) == next then (t, [])
      else if next.None? then Forget(t, key, unsubOk)
      else Switch(t, key, node, next.value, subOk, unsubOk)
  }

  class Subscriptions {
    var discoveryAvailabilityTopics: map<Key, Topic>
    var availabilityTopicRefCount: map<Topic, nat>
    var availabilityTopicNodeId: map<Topic, string>
    var calls: seq<Call>

    function State(): Tables
      reads this
    {
      Tables(discoveryAvailabilityTopics, availabilityTopicRefCount, availabilityTopicNodeId)
    }

    constructor ()
      ensures State() == EMPTY && calls == []
    {
      discoveryAvailabilityTopics := map[];
      availabilityTopicRefCount := map[];
      availabilityTopicNodeId := map[];
      calls := [];
    }

    method SubscribeTopic(topic: Topic, node: string, ok: bool) returns (acquired: bool)
      modifies this
      ensures var (t, made, yes) := Acquire(old(State()), topic, node, ok);
        State() == t && calls == old(calls) + made && acquired == yes
    {
      var refCount := RefCount(availabilityTopicRefCount, topic);
      if refCount == 0 {
        calls := calls + [Subscribe(topic, ok)];
        if !ok {
          return false;
        }
        availabilityTopicNodeId := availabilityTopicNodeId[topic := node];
      }
      availabilityTopicRefCount := availabilityTopicRefCount[topic := refCount + 1];
      return true;
    }

    method UnsubscribeTopic(topic: Topic, ok: bool)
      modifies this
      ensures var (t, made) := Release(old(State()), topic, ok);
        State() == t && calls == old(calls) + made
    {
      if topic !in availabilityTopicRefCount {
        return;
      }
      var refCount := availabilityTopicRefCount[topic];
      if refCount > 1 {
        availabilityTopicRefCount := availabilityTopicRefCount[topic := refCount - 1];
        return;
      }
      availabilityTopicRefCount := availabilityTopicRefCount - {topic};
      availabilityTopicNodeId := availabilityTopicNodeId - {topic};
      calls := calls + [Unsubscribe(topic, ok)];
    }

    method Reconcile(key: Key, node: string, next: Option<Topic>, subOk: bool, unsubOk: bool)
      modifies this
      ensures var (t, made) := Process(old(State()), Discovered(key, node, next, subOk, unsubOk));
        State() == t && calls == old(calls) + made
    {
      var current := if key in discoveryAvailabilityTopics then Some(discoveryAvailabilityTopics[key]) else None;
      if current == next {
        return;
      }
      if next.None? {
        Tombstone(key, unsubOk);
        return;
      }
      var acquired := SubscribeTopic(next.value, node, subOk);
      if !acquired {
        return;
      }
      discoveryAvailabilityTopics := discoveryAvailabilityTopics[key := next.value];
      if current.Some? {
        UnsubscribeTopic(current.value, unsubOk);
      }
    }

    method Tombstone(key: Key, unsubOk: bool)
      modifies this
      ensures var (t, made) := Process(old(State()), Withdrawn(key, unsubOk));
        State() == t && calls == old(calls) + made
    {
      if key in discoveryAvailabilityTopics {
        var topic := discoveryAvailabilityTopics[key];
        discoveryAvailabilityTopics := discoveryAvailabilityTopics - {key};
        UnsubscribeTopic(topic, unsubOk);
      }
    }
  }

  // ---- Reference counts are preimage sizes ----

  ghost function Users(topicOf: map<Key, Topic>, topic: Topic): set<Key> {
    set k | k in topicOf && topicOf[k] == topic
  }

  ghost predicate Counted(topicOf: map<Key, Topic>, refs: map<Topic, nat>) {
    forall t :: RefCount(refs, t) == |Users(topicOf, t)| && (t in refs ==> refs[t] >= 1)
  }

  ghost predicate Consistent(t: Tables) {
    && Counted(t.topicOf, t.refs)
    && t.nodeOf.Keys == t.refs.Keys
  }

  /** What `Consistent` says of the domains: exactly the topics some key uses are counted and mapped. */
  lemma DomainsAgree(t: Tables)
    requires Consistent(t)
    ensures t.refs.Keys == t.nodeOf.Keys == t.topicOf.Values
  {
    forall topic
      ensures topic in t.refs <==> topic in t.topicOf.Values
    {
      assert RefCount(t.refs, topic) == |Users(t.topicOf, topic)|;
      if topic in t.topicOf.Values {
        var k :| k in t.topicOf && t.topicOf[k] == topic;
        assert k in Users(t.topicOf, topic);
      } else {
        assert Users(t.topicOf, topic) == {};
      }
    }
  }

  lemma UsersWithout(topicOf: map<Key, Topic>, key: Key, topic: Topic)
    requires key in topicOf
    ensures |Users(topicOf - {key}, topic)| == |Users(topicOf, topic)| - if topicOf[key] == topic then 1 else 0
  {
    assert Users(topicOf - {key}, topic) == Users(topicOf, topic) - {key};
  }

  lemma UsersWith(topicOf: map<Key, Topic>, key: Key, next: Topic, topic: Topic)
    requires key !in topicOf
    ensures |Users(topicOf[key := next], topic)| == |Users(topicOf, topic)| + if topic == next then 1 else 0
  {
    assert Users(topicOf[key := next], topic) == Users(topicOf, topic) + if topic == next then {key} else {};
  }

  lemma ForgetKeeps(t: Tables, key: Key, ok: bool)
    requires Consistent(t) && key in t.topicOf
    ensures Consistent(Forget(t, key, ok).0)
  {
    var t' := Forget(t, key, ok).0;
    forall topic
      ensures RefCount(t'.refs, topic) == |Users(t'.topicOf, topic)| && (topic in t'.refs ==> t'.refs[topic] >= 1)
    {
      assert RefCount(t.refs, t.topicOf[key]) == |Users(t.topicOf, t.topicOf[key])|;
      assert RefCount(t.refs, topic) == |Users(t.topicOf, topic)|;
      UsersWithout(t.topicOf, key, t.topicOf[key]);
      UsersWithout(t.topicOf, key, topic);
    }
  }

  /** The state between acquiring the next topic and releasing the previous one. */
  lemma MidSwitchCounts(t: Tables, key: Key, node: string, next: Topic, topic: Topic)
    requires Consistent(t) && TopicOf(t, key) != Some(next)
    ensures var t2 := Acquire(t, next, node, true).0;
      RefCount(t2.refs, topic) == |Users(t.topicOf[key := next], topic)|
                                  + if key in t.topicOf && topic == t.topicOf[key] then 1 else 0
  {
    assert RefCount(t.refs, topic) == |Users(t.topicOf, topic)|;
    var rest := t.topicOf - {key};
    if key in t.topicOf {
      UsersWithout(t.topicOf, key, topic);
    } else {
      assert rest == t.topicOf;
    }
    UsersWith(rest, key, next, topic);
    assert rest[key := next] == t.topicOf[key := next];
  }

  lemma SwitchCounts(t: Tables, key: Key, node: string, next: Topic, unsubOk: bool, topic: Topic)
    requires Consistent(t) && TopicOf(t, key) != Some(next)
    ensures var t' := Switch(t, key, node, next, true, unsubOk).0;
      RefCount(t'.refs, topic) == |Users(t'.topicOf, topic)| && (topic in t'.refs ==> t'.refs[topic] >= 1)
  {
    MidSwitchCounts(t, key, node, next, topic);
    if key in t.topicOf {
      MidSwitchCounts(t, key, node, next, t.topicOf[key]);
    }
    assert topic in t.refs ==> t.refs[topic] >= 1 by {
      assert RefCount(t.refs, topic) == |Users(t.topicOf, topic)|;
    }
  }

  /** A subscribe that is tried and fails leaves everything as it was; any other goes through. */
  lemma AcquireOutcome(t: Tables, next: Topic, node: string, ok: bool)
    ensures Acquire(t, next, node, ok) == if Acquire(t, next, node, ok).2 then Acquire(t, next, node, true)
                                          else (t, [Subscribe(next, false)], false)
  {
  }

  lemma SwitchKeeps(t: Tables, key: Key, node: string, next: Topic, subOk: bool, unsubOk: bool)
    requires Consistent(t) && TopicOf(t, key) != Some(next)
    ensures Consistent(Switch(t, key, node, next, subOk, unsubOk).0)
  {
    AcquireOutcome(t, next, node, subOk);
    if Acquire(t, next, node, subOk).2 {
      var t' := Switch(t, key, node, next, true, unsubOk).0;
      assert Switch(t, key, node, next, subOk, unsubOk).0 == t';
      forall topic
        ensures RefCount(t'.refs, topic) == |Users(t'.topicOf, topic)| && (topic in t'.refs ==> t'.refs[topic] >= 1)
      {
        SwitchCounts(t, key, node, next, unsubOk, topic);
      }
    }
  }

  lemma ProcessKeeps(t: Tables, e: Event)
    requires Consistent(t)
    ensures Consistent(Process(t, e).0)
  {
    match e
    case Withdrawn(key, ok) => if key in t.topicOf { ForgetKeeps(t, key, ok); }
    case Discovered(key, node, next, subOk, unsubOk) =>
      if TopicOf(t, key) != next {
        if next.None? {
          ForgetKeeps(t, key, unsubOk);
        } else {
          SwitchKeeps(t, key, node, next.value, subOk, unsubOk);
        }
      }
  }

  // ---- The broker's side ----

  /** The availability subscriptions the broker holds after these calls. */
  function Broker(calls: seq<Call>): set<Topic> {
    if calls == [] then {}
    else
      var held := Broker(calls[..|calls| - 1]);
      match calls[|calls| - 1]
      case Subscribe(topic, ok) => if ok then held + {topic} else held
      case Unsubscribe(topic, ok) => if ok then held - {topic} else held
  }

  /** Topics whose last successful or failed release was a failure, and that were not subscribed again since. */
  function Leaked(calls: seq<Call>): set<Topic> {
    if calls == [] then {}
    else
      var stale := Leaked(calls[..|calls| - 1]);
      match calls[|calls| - 1]
      case Subscribe(topic, ok) => if ok then stale - {topic} else stale
      case Unsubscribe(topic, ok) => if ok then stale - {topic} else stale + {topic}
  }

  ghost function Run(events: seq<Event>): (Tables, seq<Call>) {
    if events == [] then (EMPTY, [])
    else
      var (t, calls) := Run(events[..|events| - 1]);
      var (t', made) := Process(t, events[|events| - 1]);
      (t', calls + made)
  }

  /** The broker holds the counted topics and the leaked ones, and these are different topics. */
  ghost predicate Mirrors(refs: map<Topic, nat>, calls: seq<Call>) {
    Broker(calls) == refs.Keys + Leaked(calls) && refs.Keys !! Leaked(calls)
  }

  ghost predicate Tracks(t: Tables, calls: seq<Call>) {
    Consistent(t) && Mirrors(t.refs, calls)
  }

  lemma OneCall(calls: seq<Call>, c: Call)
    ensures Broker(calls + [c]) == if !c.ok then Broker(calls)
                                   else if c.Subscribe? then Broker(calls) + {c.topic} else Broker(calls) - {c.topic}
    ensures Leaked(calls + [c]) == if c.ok then Leaked(calls) - {c.topic}
                                   else if c.Subscribe? then Leaked(calls) else Leaked(calls) + {c.topic}
  {
    assert (calls + [c])[..|calls|] == calls;
  }

  lemma ReleaseMirrors(t: Tables, calls: seq<Call>, topic: Topic, ok: bool)
    requires Mirrors(t.refs, calls)
    ensures Mirrors(Release(t, topic, ok).0.refs, calls + Release(t, topic, ok).1)
  {
    var made := Release(t, topic, ok).1;
    if made == [] {
      assert calls + made == calls;
    } else {
      OneCall(calls, made[0]);
    }
  }

  lemma AcquireMirrors(t: Tables, calls: seq<Call>, topic: Topic, node: string, ok: bool)
    requires Mirrors(t.refs, calls)
    ensures Mirrors(Acquire(t, topic, node, ok).0.refs, calls + Acquire(t, topic, node, ok).1)
  {
    if RefCount(t.refs, topic) == 0 {
      OneCall(calls, Subscribe(topic, ok));
    } else {
      assert calls + [] == calls;
      assert t.refs[topic := RefCount(t.refs, topic) + 1].Keys == t.refs.Keys;
    }
  }

  lemma SwitchMirrors(t: Tables, calls: seq<Call>, key: Key, node: string, next: Topic, subOk: bool, unsubOk: bool)
    requires Mirrors(t.refs, calls)
    ensures Mirrors(Switch(t, key, node, next, subOk, unsubOk).0.refs,
                    calls + Switch(t, key, node, next, subOk, unsubOk).1)
  {
    var (t1, made, acquired) := Acquire(t, next, node, subOk);
    AcquireMirrors(t, calls, next, node, subOk);
    if acquired && key in t.topicOf {
      var t2 := t1.(topicOf := t1.topicOf[key := next]);
      ReleaseMirrors(t2, calls + made, t.topicOf[key], unsubOk);
      var more := Release(t2, t.topicOf[key], unsubOk).1;
      assert calls + (made + more) == calls + made + more;
    }
  }

  lemma ProcessTracks(t: Tables, calls: seq<Call>, e: Event)
    requires Tracks(t, calls)
    ensures Tracks(Process(t, e).0, calls + Process(t, e).1)
  {
    ProcessKeeps(t, e);
    assert calls + [] == calls;
    match e
    case Withdrawn(key, ok) =>
      if key in t.topicOf {
        ReleaseMirrors(t.(topicOf := t.topicOf - {key}), calls, t.topicOf[key], ok);
      }
    case Discovered(key, node, next, subOk, unsubOk) =>
      if TopicOf(t, key) != next {
        if next.None? {
          ReleaseMirrors(t.(topicOf := t.topicOf - {key}), calls, t.topicOf[key], unsubOk);
        } else {
          SwitchMirrors(t, calls, key, node, next.value, subOk, unsubOk);
        }
      }
  }

  // ---- Theorems ----

  lemma {:induction false} RunTracks(events: seq<Event>)
    ensures Tracks(Run(events).0, Run(events).1)
  {
    if events != [] {
      RunTracks(events[..|events| - 1]);
      var (t, calls) := Run(events[..|events| - 1]);
      ProcessTracks(t, calls, events[|events| - 1]);
    }
  }

  /**
   * After every run, each topic's count is the number of keys that use it and at least 1, and the
   * count and node tables hold exactly the topics in use.
   */
  lemma CountsAreUses(events: seq<Event>)
    ensures var t := Run(events).0;
      && t.refs.Keys == t.nodeOf.Keys == t.topicOf.Values
      && forall topic :: topic in t.refs ==> t.refs[topic] == |Users(t.topicOf, topic)| >= 1
  {
    RunTracks(events);
    DomainsAgree(Run(events).0);
    var t := Run(events).0;
    forall topic | topic in t.refs
      ensures t.refs[topic] == |Users(t.topicOf, topic)| >= 1
    {
      assert RefCount(t.refs, topic) == |Users(t.topicOf, topic)|;
    }
  }

  /**
   * Whatever client calls fail, the broker holds every topic some key needs; what it holds beyond
   * that is exactly the leaked topics, each of which had a failed unsubscribe.
   */
  lemma BrokerCoversNeeds(events: seq<Event>)
    ensures var (t, calls) := Run(events);
      && Broker(calls) == t.topicOf.Values + Leaked(calls)
      && t.topicOf.Values !! Leaked(calls)
      && (forall topic :: topic in Leaked(calls) ==> Unsubscribe(topic, false) in calls)
  {
    RunTracks(events);
    DomainsAgree(Run(events).0);
    LeaksHadFailures(Run(events).1);
  }

  lemma {:induction false} LeaksHadFailures(calls: seq<Call>)
    ensures forall topic :: topic in Leaked(calls) ==> Unsubscribe(topic, false) in calls
  {
    if calls != [] {
      LeaksHadFailures(calls[..|calls| - 1]);
    }
  }

  /**
   * While one event is handled, at every instant between its client calls, every topic that is needed
   * both before and after stays subscribed; and when a key moves between topics, the old or the new
   * one is subscribed.
   */
  lemma NoSubscriptionGap(events: seq<Event>, e: Event, instant: nat)
    requires instant <= |Process(Run(events).0, e).1|
    ensures var (t, calls) := Run(events);
      var (t', made) := Process(t, e);
      var held := Broker(calls + made[..instant]);
      && t.topicOf.Values * t'.topicOf.Values <= held
      && (forall key :: key in t.topicOf && key in t'.topicOf ==> t.topicOf[key] in held || t'.topicOf[key] in held)
  {
    var (t, calls) := Run(events);
    var (t', made) := Process(t, e);
    RunTracks(events);
    TracksCovers(t, calls);
    ProcessTracks(t, calls, e);
    TracksCovers(t', calls + made);
    if instant == |made| {
      assert made[..instant] == made;
    } else if instant == 0 {
      assert calls + made[..0] == calls;
    } else {
      TwoCalls(t, e);
      assert made[..instant] == [made[0]];
      OneCall(calls, made[0]);
    }
  }

  lemma TracksCovers(t: Tables, calls: seq<Call>)
    requires Tracks(t, calls)
    ensures t.topicOf.Values <= Broker(calls)
    ensures forall key :: key in t.topicOf ==> t.topicOf[key] in Broker(calls)
  {
    DomainsAgree(t);
    assert forall key :: key in t.topicOf ==> t.topicOf[key] in t.topicOf.Values;
  }

  /** Only a switch makes two calls, and it subscribes first. */
  lemma TwoCalls(t: Tables, e: Event)
    ensures var made := Process(t, e).1;
      |made| <= 1 || (|made| == 2 && made[0].Subscribe? && made[0].ok)
  {
  }

  /** The topic each key's latest announcement asked for. */
  function LastRequested(events: seq<Event>): map<Key, Topic> {
    if events == [] then map[] else Asked(LastRequested(events[..|events| - 1]), events[|events| - 1])
  }

  ghost predicate Follows(events: seq<Event>, n: nat)
    requires n <= |events|
  {
    Run(events[..n]).0.topicOf == LastRequested(events[..n])
  }

  ghost predicate NoFailedSubscribe(calls: seq<Call>) {
    forall topic :: Subscribe(topic, false) !in calls
  }

  /** What one announcement or withdrawal asks for. */
  function Asked(requested: map<Key, Topic>, e: Event): map<Key, Topic> {
    match e
    case Withdrawn(key, _) => requested - {key}
    case Discovered(key, _, next, _, _) => if next.Some? then requested[key := next.value] else requested - {key}
  }

  lemma OneEventFollows(t: Tables, e: Event)
    ensures NoFailedSubscribe(Process(t, e).1) <==> Process(t, e).0.topicOf == Asked(t.topicOf, e)
  {
    if e.Discovered? && e.next.Some? && TopicOf(t, e.key) != e.next {
      if !Acquire(t, e.next.value, e.node, e.subOk).2 {
        assert Subscribe(e.next.value, false) in Process(t, e).1;
      }
    }
  }

  lemma NoFailureConcat(a: seq<Call>, b: seq<Call>)
    ensures NoFailedSubscribe(a + b) <==> NoFailedSubscribe(a) && NoFailedSubscribe(b)
  {
    assert forall c :: c in a + b <==> c in a || c in b;
  }

  lemma FollowsStep(events: seq<Event>, n: nat)
    requires n < |events| && Follows(events, n)
    ensures Follows(events, n + 1) <==> NoFailedSubscribe(Process(Run(events[..n]).0, events[n]).1)
  {
    assert events[..n + 1][..n] == events[..n];
    OneEventFollows(Run(events[..n]).0, events[n]);
  }

  lemma CallsStep(events: seq<Event>, n: nat)
    requires n < |events|
    ensures NoFailedSubscribe(Run(events[..n + 1]).1)
       <==> NoFailedSubscribe(Run(events[..n]).1) && NoFailedSubscribe(Process(Run(events[..n]).0, events[n]).1)
  {
    assert events[..n + 1][..n] == events[..n];
    NoFailureConcat(Run(events[..n]).1, Process(Run(events[..n]).0, events[n]).1);
  }

  ghost predicate AllSubscribed(events: seq<Event>, n: nat)
    requires n <= |events|
  {
    NoFailedSubscribe(Run(events[..n]).1)
  }

  lemma SubscribedStep(events: seq<Event>, n: nat)
    requires n < |events|
    ensures AllSubscribed(events, n + 1) ==> AllSubscribed(events, n)
    ensures AllSubscribed(events, n) && Follows(events, n) ==>
      (Follows(events, n + 1) <==> AllSubscribed(events, n + 1))
  {
    CallsStep(events, n);
    if Follows(events, n) {
      FollowsStep(events, n);
    }
  }

  /**
   * At every point of a run each key uses the topic its latest announcement asked for, exactly when
   * no subscribe call failed in that run.
   */
  lemma FollowsRequests(events: seq<Event>)
    ensures (forall n :: 0 <= n <= |events| ==> Follows(events, n)) <==> NoFailedSubscribe(Run(events).1)
  {
    var follows := (n: nat) => n <= |events| && Follows(events, n);
    var clean := (n: nat) => n <= |events| && AllSubscribed(events, n);
    forall n: nat | n < |events|
      ensures clean(n + 1) ==> clean(n)
      ensures clean(n) && follows(n) ==> (follows(n + 1) <==> clean(n + 1))
    {
      SubscribedStep(events, n);
    }
    UpTo(follows, clean, |events|);
    assert forall n :: 0 <= n <= |events| ==> (follows(n) <==> Follows(events, n));
    assert events[..|events|] == events;
  }

  lemma SwitchNodes(t: Tables, key: Key, node: string, next: Topic, subOk: bool, unsubOk: bool, topic: Topic)
    requires t.nodeOf.Keys == t.refs.Keys
    ensures var t' := Switch(t, key, node, next, subOk, unsubOk).0;
      topic in t'.refs ==>
        topic in t'.nodeOf
        && if RefCount(t.refs, topic) > 0 then t'.nodeOf[topic] == t.nodeOf[topic]
           else topic in t.refs || (topic == next && t'.nodeOf[topic] == node)
  {
  }

  lemma ProcessNodes(t: Tables, e: Event, topic: Topic)
    requires t.nodeOf.Keys == t.refs.Keys && topic in Process(t, e).0.refs
    ensures topic in Process(t, e).0.nodeOf
    ensures if RefCount(t.refs, topic) > 0 then Process(t, e).0.nodeOf[topic] == t.nodeOf[topic]
            else topic in t.refs || (e.Discovered? && e.next == Some(topic) && Process(t, e).0.nodeOf[topic] == e.node)
  {
    if e.Discovered? && e.next.Some? && TopicOf(t, e.key) != e.next {
      SwitchNodes(t, e.key, e.node, e.next.value, e.subOk, e.unsubOk, topic);
    }
  }

  /** A topic speaks for the node of the announcement that first needed it, for as long as it stays needed. */
  lemma NodeMappingStable(events: seq<Event>, e: Event, topic: Topic)
    requires topic in Process(Run(events).0, e).0.refs
    ensures var t := Run(events).0;
      var t' := Process(t, e).0;
      topic in t'.nodeOf
      && if topic in t.refs then topic in t.nodeOf && t'.nodeOf[topic] == t.nodeOf[topic]
         else e.Discovered? && e.next == Some(topic) && t'.nodeOf[topic] == e.node
  {
    var t := Run(events).0;
    RunTracks(events);
    assert RefCount(t.refs, topic) == |Users(t.topicOf, topic)| && (topic in t.refs ==> t.refs[topic] >= 1);
    ProcessNodes(t, e, topic);
  }

  // ---- The tables against a plain map ----

  /** Some key other than `key` uses the topic. */
  ghost predicate NeededWithout(uses: map<Key, Topic>, key: Key, topic: Topic) {
    exists k :: k in uses && k != key && uses[k] == topic
  }

  /** The call that giving up a key's topic takes: none while another key needs it. */
  ghost function GivenUp(uses: map<Key, Topic>, key: Key, ok: bool): seq<Call> {
    if key !in uses || NeededWithout(uses, key, uses[key]) then [] else [Unsubscribe(uses[key], ok)]
  }

  /**
   * What one event does to who uses which topic, and the calls it takes, with no counting: a topic is
   * subscribed when its first user comes and given up when its last one leaves, and a key keeps its
   * topic when the one it asks for cannot be subscribed.
   */
  ghost function Moved(uses: map<Key, Topic>, e: Event): (map<Key, Topic>, seq<Call>) {
    match e
    case Withdrawn(key, ok) => (uses - {key}, GivenUp(uses, key, ok))
    case Discovered(key, _, None, _, ok) => (uses - {key}, GivenUp(uses, key, ok))
    case Discovered(key, _, Some(next), subOk, ok) =>
      if key in uses && uses[key] == next then (uses, [])
      else if NeededWithout(uses, key, next) then (uses[key := next], GivenUp(uses, key, ok))
      else if subOk then (uses[key := next], [Subscribe(next, true)] + GivenUp(uses, key, ok))
      else (uses, [Subscribe(next, false)])
  }

  ghost function MovedAll(events: seq<Event>): (map<Key, Topic>, seq<Call>) {
    if events == [] then (map[], [])
    else
      var (uses, calls) := MovedAll(events[..|events| - 1]);
      var (uses', made) := Moved(uses, events[|events| - 1]);
      (uses', calls + made)
  }

  lemma OtherUsers(uses: map<Key, Topic>, key: Key, topic: Topic)
    ensures |Users(uses, topic)| == |Users(uses, topic) - {key}| + if key in uses && uses[key] == topic then 1 else 0
    ensures NeededWithout(uses, key, topic) <==> Users(uses, topic) - {key} != {}
  {
    var others := Users(uses, topic) - {key};
    if key in uses && uses[key] == topic {
      assert Users(uses, topic) == others + {key};
    } else {
      assert Users(uses, topic) == others;
    }
    if NeededWithout(uses, key, topic) {
      var k :| k in uses && k != key && uses[k] == topic;
      assert k in others;
    }
  }

  /** A count tells whether another key needs the topic. */
  lemma CountTellsNeed(t: Tables, key: Key, topic: Topic)
    requires Consistent(t)
    ensures NeededWithout(t.topicOf, key, topic)
       <==> RefCount(t.refs, topic) > if key in t.topicOf && t.topicOf[key] == topic then 1 else 0
    ensures topic in t.refs <==> RefCount(t.refs, topic) > 0
  {
    OtherUsers(t.topicOf, key, topic);
    assert RefCount(t.refs, topic) == |Users(t.topicOf, topic)| && (topic in t.refs ==> t.refs[topic] >= 1);
  }

  lemma ReleaseIsGivingUp(t: Tables, rest: Tables, key: Key, ok: bool)
    requires Consistent(t) && key in t.topicOf
    requires RefCount(rest.refs, t.topicOf[key]) == RefCount(t.refs, t.topicOf[key])
    ensures Release(rest, t.topicOf[key], ok).1 == GivenUp(t.topicOf, key, ok)
    ensures Release(rest, t.topicOf[key], ok).0.topicOf == rest.topicOf
  {
    CountTellsNeed(t, key, t.topicOf[key]);
    assert key in Users(t.topicOf, t.topicOf[key]);
    assert RefCount(t.refs, t.topicOf[key]) == |Users(t.topicOf, t.topicOf[key])|;
  }

  lemma SwitchMoves(t: Tables, e: Event)
    requires Consistent(t) && e.Discovered? && e.next.Some? && TopicOf(t, e.key) != e.next
    ensures (Process(t, e).0.topicOf, Process(t, e).1) == Moved(t.topicOf, e)
  {
    var next := e.next.value;
    CountTellsNeed(t, e.key, next);
    var (t1, made, acquired) := Acquire(t, next, e.node, e.subOk);
    var last := GivenUp(t.topicOf, e.key, e.unsubOk);
    assert [] + last == last && made + [] == made;
    if acquired && e.key in t.topicOf {
      ReleaseIsGivingUp(t, t1.(topicOf := t1.topicOf[e.key := next]), e.key, e.unsubOk);
    }
  }

  lemma ProcessMoves(t: Tables, e: Event)
    requires Consistent(t)
    ensures (Process(t, e).0.topicOf, Process(t, e).1) == Moved(t.topicOf, e)
  {
    if e.Discovered? && e.next.Some? {
      if TopicOf(t, e.key) != e.next {
        SwitchMoves(t, e);
      }
    } else if e.key in t.topicOf {
      ReleaseIsGivingUp(t, t.(topicOf := t.topicOf - {e.key}), e.key, e.unsubOk);
    } else {
      assert t.topicOf - {e.key} == t.topicOf;
    }
  }

  /**
   * The counting refines a plain map of who uses which topic: in every run, with any calls failing, both
   * hold the same uses and make the same calls in the same order.
   */
  lemma {:induction false} RefinesPlainMap(events: seq<Event>)
    ensures (Run(events).0.topicOf, Run(events).1) == MovedAll(events)
  {
    if events != [] {
      var before := events[..|events| - 1];
      RefinesPlainMap(before);
      RunTracks(before);
      ProcessMoves(Run(before).0, events[|events| - 1]);
    }
  }
}
