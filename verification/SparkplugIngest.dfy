/**
 * The Sparkplug ingest adapter's sequence tracking: one expected number per device stream, and
 * throttled rebirth requests per edge node.
 */
module SparkplugIngest {
  import opened Wrappers
  import opened Octets

  datatype StreamKey = StreamKey(group: string, edge: string, device: string)
  datatype EdgeKey = EdgeKey(group: string, edge: string)

  const REBIRTH_COOLDOWN_MS: nat := 30_000

  /** `u8::wrapping_add(1)`. */
  function WrappingIncrement(n: Byte): Byte {
    if n == 255 then 0 else n + 1
  }

  /**
   * A publish as the event loop sees it. `seqNo` is the payload's optional 64-bit sequence number;
   * `usable` says that a DBIRTH payload decoded to at least one capability.
   */
  datatype Incoming =
    | Birth(key: StreamKey, seqNo: Option<nat>, usable: bool)
    | EmptyBirth(key: StreamKey)
    | Data(key: StreamKey, seqNo: Option<nat>)
    | Death(key: StreamKey)

  /** `payload_seq`: numbers that do not fit a byte count as absent. */
  function ObservedSeq(raw: Option<nat>): Option<Byte> {
    if raw.Some? && raw.value < 256 then Some(raw.value) else None
  }

  datatype IngestState = IngestState(expected: map<StreamKey, Byte>, lastRequest: map<EdgeKey, nat>)

  const FRESH: IngestState := IngestState(map[], map[])

  function Edge(key: StreamKey): EdgeKey { EdgeKey(key.group, key.edge) }

  predicate CoolingDown(lastRequest: map<EdgeKey, nat>, edge: EdgeKey, now: nat) {
    edge in lastRequest && now < lastRequest[edge] + REBIRTH_COOLDOWN_MS
  }

  datatype Verdict = Verdict(state: IngestState, mismatch: bool, requested: bool)

  /** One turn of the event loop. `ncmdOk` is the outcome of publishing a rebirth request, if one is tried. */
  function Receive(s: IngestState, m: Incoming, now: nat, ncmdOk: bool): Verdict {
    match m
    case EmptyBirth(_) => Verdict(s, false, false)
    case Birth(key, raw, usable) =>
      var n := ObservedSeq(raw);
      Verdict(if usable && n.Some? then s.(expected := s.expected[key := WrappingIncrement(n.value)]) else s,
              false, false)
    case Data(key, raw) =>
      var n := ObservedSeq(raw);
      if n.None? then Verdict(s, false, false)
      else
        var mismatch := key in s.expected && s.expected[key] != n.value;
        var asked := mismatch && !CoolingDown(s.lastRequest, Edge(key), now) && ncmdOk;
        Verdict(IngestState(s.expected[key := WrappingIncrement(n.value)],
                            if asked then s.lastRequest[Edge(key) := now] else s.lastRequest),
                mismatch, asked)
    case Death(key) => Verdict(s.(expected := s.expected - {key}), false, false)
  }

  class IngestLoop {
    var expectedSeqByDevice: map<StreamKey, Byte>
    var lastRebirthRequestAt: map<EdgeKey, nat>

    function State(): IngestState
      reads this
    {
      IngestState(expectedSeqByDevice, lastRebirthRequestAt)
    }

    constructor ()
      ensures State() == FRESH
    {
      expectedSeqByDevice, lastRebirthRequestAt := map[], map[];
    }

    method Handle(m: Incoming, now: nat, ncmdOk: bool) returns (mismatch: bool, requested: bool)
      modifies this
      ensures Verdict(State(), mismatch, requested) == Receive(old(State()), m, now, ncmdOk)
    {
      mismatch, requested := false, false;
      match m {
        case EmptyBirth(_) =>
        case Birth(key, raw, usable) =>
          if usable {
            var n := ObservedSeq(raw);
            if n.Some? {
              expectedSeqByDevice := expectedSeqByDevice[key := WrappingIncrement(n.value)];
            }
          }
        case Data(key, raw) =>
          var n := ObservedSeq(raw);
          if n.Some? {
            if key in expectedSeqByDevice {
              if n.value != expectedSeqByDevice[key] {
                mismatch := true;
                requested := MaybeRequestRebirth(Edge(key), now, ncmdOk);
              }
            }
            expectedSeqByDevice := expectedSeqByDevice[key := WrappingIncrement(n.value)];
          }
        case Death(key) =>
          expectedSeqByDevice := expectedSeqByDevice - {key};
      }
    }

    method MaybeRequestRebirth(edge: EdgeKey, now: nat, ncmdOk: bool) returns (requested: bool)
      modifies this`lastRebirthRequestAt
      ensures requested == (!CoolingDown(old(lastRebirthRequestAt), edge, now) && ncmdOk)
      ensures lastRebirthRequestAt
           == if requested then old(lastRebirthRequestAt)[edge := now] else old(lastRebirthRequestAt)
    {
      if CoolingDown(lastRebirthRequestAt, edge, now) {
        return false;
      }
      if !ncmdOk {
        return false;
      }
      lastRebirthRequestAt := lastRebirthRequestAt[edge := now];
      return true;
    }
  }

  // ---- Whole runs ----

  datatype Input = Input(message: Incoming, now: nat, ncmdOk: bool)
  datatype Request = Request(edge: EdgeKey, at: nat)

  ghost function AfterInputs(inputs: seq<Input>): IngestState {
    if inputs == [] then FRESH
    else
      var last := inputs[|inputs| - 1];
      Receive(AfterInputs(inputs[..|inputs| - 1]), last.message, last.now, last.ncmdOk).state
  }

  ghost function VerdictOn(inputs: seq<Input>): Verdict
    requires inputs != []
  {
    var last := inputs[|inputs| - 1];
    Receive(AfterInputs(inputs[..|inputs| - 1]), last.message, last.now, last.ncmdOk)
  }

  /**
   * The number a stream is expected to carry next, read off the messages alone: one after the last
   * number read on it, from a report or a usable birth, and none after a death. Messages without a
   * number that fits a byte do not count.
   */
  function LastSynchronised(inputs: seq<Input>, key: StreamKey): Option<nat> {
    if inputs == [] then None
    else
      var before := LastSynchronised(inputs[..|inputs| - 1], key);
      match inputs[|inputs| - 1].message
      case Birth(k, Some(n), usable) => if k == key && usable && n <= 255 then Some((n + 1) % 256) else before
      case Data(k, Some(n)) => if k == key && n <= 255 then Some((n + 1) % 256) else before
      case Death(k) => if k == key then None else before
      case _ => before
  }

  lemma {:induction false} ExpectedExactly(inputs: seq<Input>, key: StreamKey)
    ensures var expected := AfterInputs(inputs).expected;
      LastSynchronised(inputs, key) == if key in expected then Some(expected[key]) else None
  {
    if inputs != [] {
      ExpectedExactly(inputs[..|inputs| - 1], key);
    }
  }

  /** A message is out of sequence exactly when it is a report with another number than the expected one. */
  lemma MismatchedExactly(inputs: seq<Input>)
    requires inputs != []
    ensures VerdictOn(inputs).mismatch
       <==> match inputs[|inputs| - 1].message
            case Data(key, Some(n)) =>
              n <= 255 && LastSynchronised(inputs[..|inputs| - 1], key) !in {None, Some(n)}
            case _ => false
  {
    ExpectedExactly(inputs[..|inputs| - 1], inputs[|inputs| - 1].message.key);
  }

  /** The rebirth requests a fresh ingest adapter puts on the bus while it reads `inputs`. */
  ghost function Requests(inputs: seq<Input>): seq<Request> {
    if inputs == [] then []
    else
      var last := inputs[|inputs| - 1];
      Requests(inputs[..|inputs| - 1])
      + if VerdictOn(inputs).requested then [Request(Edge(last.message.key), last.now)] else []
  }

  /** The remembered instant of an edge node is that of its latest request, and none is later. */
  lemma {:induction false} LastRequestIsLatest(inputs: seq<Input>)
    ensures forall e :: e in AfterInputs(inputs).lastRequest ==>
      Request(e, AfterInputs(inputs).lastRequest[e]) in Requests(inputs)
    ensures forall r :: r in Requests(inputs) ==>
      r.edge in AfterInputs(inputs).lastRequest && r.at <= AfterInputs(inputs).lastRequest[r.edge]
  {
    if inputs != [] {
      LastRequestIsLatest(inputs[..|inputs| - 1]);
    }
  }

  /** Two requests to one edge node are never less than the cooldown apart, whatever arrives and whenever. */
  lemma {:induction false} RequestsSpaced(inputs: seq<Input>, i: nat, j: nat)
    requires i < j < |Requests(inputs)|
    requires Requests(inputs)[i].edge == Requests(inputs)[j].edge
    ensures Requests(inputs)[i].at + 30_000 <= Requests(inputs)[j].at
  {
    var before := inputs[..|inputs| - 1];
    if j < |Requests(before)| {
      RequestsSpaced(before, i, j);
    } else {
      LastRequestIsLatest(before);
      assert Requests(before)[i] in Requests(before);
    }
  }

  /**
   * A request is made exactly on a mismatch whose request can be sent, unless one was made to the same
   * edge node less than 30 s ago.
   */
  lemma RequestedExactly(inputs: seq<Input>)
    requires inputs != []
    ensures var last := inputs[|inputs| - 1];
      VerdictOn(inputs).requested
      <==> && VerdictOn(inputs).mismatch && last.ncmdOk
           && forall r :: r in Requests(inputs[..|inputs| - 1]) && r.edge == Edge(last.message.key) ==>
                r.at + 30_000 <= last.now
  {
    LastRequestIsLatest(inputs[..|inputs| - 1]);
  }

  /**
   * A request is made only on a mismatch; and a mismatch whose request could be sent is covered by a
   * request to the same edge node, made now or less than one cooldown ago.
   */
  lemma RequestsAnswerMismatches(inputs: seq<Input>)
    requires inputs != []
    ensures VerdictOn(inputs).requested ==> VerdictOn(inputs).mismatch
    ensures var last := inputs[|inputs| - 1];
      VerdictOn(inputs).mismatch && last.ncmdOk ==>
        exists r :: r in Requests(inputs) && r.edge == Edge(last.message.key) && last.now < r.at + 30_000
  {
    var last := inputs[|inputs| - 1];
    var edge := Edge(last.message.key);
    var before := inputs[..|inputs| - 1];
    if VerdictOn(inputs).mismatch && last.ncmdOk {
      LastRequestIsLatest(before);
      var r := if VerdictOn(inputs).requested then Request(edge, last.now)
               else Request(edge, AfterInputs(before).lastRequest[edge]);
      assert r in Requests(inputs);
    }
  }
}
