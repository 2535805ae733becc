/** What the Sparkplug adapters put into payloads and read out of them. */
module SparkplugMessages {
  import opened Wrappers
  import opened Contracts
  import opened Octets
  import opened SparkplugIngest
  import opened SparkplugPayload

  const STRING: nat := 12
  const DOUBLE: nat := 10

  function Ascii(s: string): Bytes {
    seq(|s|, i requires 0 <= i < |s| => if s[i] as int < 128 then s[i] as int else 0)
  }

  const REBIRTH_NAME: Bytes := Ascii("Node Control/Rebirth")

  function DatatypeFor(kind: CapabilityKind): nat {
    match kind
    case BinarySensor(_) => BOOLEAN
    case Switch => BOOLEAN
    case Button => STRING
    case _ => DOUBLE
  }

  /** One birth metric: named and typed, without a value. */
  function BirthMetric(name: Bytes, kind: CapabilityKind, now: nat): Metric {
    NO_METRIC.(name := Some(name), dataType := Some(DatatypeFor(kind)), timestamp := Some(now), isNull := Some(true))
  }

  function DiscoveryPayload(caps: seq<(Bytes, CapabilityKind)>, n: nat, now: nat): Payload {
    NO_PAYLOAD.(timestamp := Some(now), seqNo := Some(n),
                metrics := seq(|caps|, i requires 0 <= i < |caps| => BirthMetric(caps[i].0, caps[i].1, now)))
  }

  /** A JSON state value: text as its UTF-8 bytes, other numbers by their bits, the rest by its JSON text. */
  datatype StateValue = Flag(flag: bool) | Whole(n: nat) | Double(eight: Bytes) | Words(text: Bytes)
                      | Structured(text: Bytes)

  /** `metric_value_from_json`. */
  function MetricFrom(v: StateValue): MetricValue {
    match v
    case Flag(b) => BooleanValue(b)
    case Whole(n) => LongValue(n)
    case Double(b) => DoubleValue(b)
    case Words(t) => StringValue(t)
    case Structured(t) => StringValue(t)
  }

  /** `datatype_for_value`. */
  function DatatypeOf(v: StateValue): nat {
    match v
    case Flag(_) => BOOLEAN
    case Whole(_) => DOUBLE
    case Double(_) => DOUBLE
    case _ => STRING
  }

  function StatePayload(name: Bytes, v: StateValue, at: nat, n: nat): Payload {
    NO_PAYLOAD.(timestamp := Some(at), seqNo := Some(n),
                metrics := [NO_METRIC.(name := Some(name), dataType := Some(DatatypeOf(v)), timestamp := Some(at),
                                       isNull := Some(false), value := Some(MetricFrom(v)))])
  }

  function ControlPayload(rebirth: bool, now: nat): Payload {
    NO_PAYLOAD.(timestamp := Some(now), seqNo := Some(0),
                metrics := [NO_METRIC.(name := Some(REBIRTH_NAME), dataType := Some(BOOLEAN),
                                       value := Some(BooleanValue(rebirth)))])
  }

  /** `payload_seq`. */
  function PayloadSeq(bytes: Bytes): Option<Byte> {
    var p :- DecodePayload(bytes);
    ObservedSeq(p.seqNo)
  }

  /** The capabilities an ingest adapter reads off metrics: named ones, binary when declared Boolean. */
  function CapabilitiesOf(metrics: seq<Metric>): seq<(Bytes, bool)> {
    if metrics == [] then []
    else (if metrics[0].name.Some? then [(metrics[0].name.value, metrics[0].dataType == Some(BOOLEAN))] else [])
         + CapabilitiesOf(metrics[1..])
  }

  /** `parse_discovery_message`: nothing without capabilities. */
  function ReadDiscovery(bytes: Bytes): Option<seq<(Bytes, bool)>> {
    var p :- DecodePayload(bytes);
    var caps := CapabilitiesOf(p.metrics);
    if caps == [] then None else Some(caps)
  }

  /** Little-endian IEEE bits: an exponent of all ones is an infinity or not a number. */
  predicate FiniteBits(b: Bytes) {
    if |b| == 4 then !(b[3] % 128 == 127 && b[2] >= 128)
    else |b| == 8 && !(b[7] % 128 == 127 && b[6] >= 240)
  }

  /** What a metric's value is read as: numbers by their bits, and a byte string as an array. */
  datatype Reading = Flagged(flag: bool) | Counted(n: nat) | Measured(bits: Bytes) | Said(text: Bytes)
                   | Listed(bytes: Bytes)

  /** `metric_value_to_json`. */
  function ReadingOf(v: Option<MetricValue>): Option<Reading> {
    match v
    case Some(BooleanValue(b)) => Some(Flagged(b))
    case Some(StringValue(t)) => Some(Said(t))
    case Some(IntValue(n)) => Some(Counted(n))
    case Some(LongValue(n)) => Some(Counted(n))
    case Some(FloatValue(b)) => if FiniteBits(b) then Some(Measured(b)) else None
    case Some(DoubleValue(b)) => if FiniteBits(b) then Some(Measured(b)) else None
    case Some(BytesValue(b)) => Some(Listed(b))
    case _ => None
  }

  /** The samples read off metrics: a capability and its value. */
  function ReadingsOf(metrics: seq<Metric>): seq<(Bytes, Reading)> {
    if metrics == [] then []
    else
      var m := metrics[0];
      (if m.name.Some? && ReadingOf(m.value).Some? then [(m.name.value, ReadingOf(m.value).value)] else [])
      + ReadingsOf(metrics[1..])
  }

  /** `parse_state_messages`: the samples and their common instant; nothing without samples. */
  function ReadStates(bytes: Bytes): Option<(seq<(Bytes, Reading)>, nat)> {
    var p :- DecodePayload(bytes);
    var readings := ReadingsOf(p.metrics);
    if readings == [] then None else Some((readings, p.timestamp.GetOr(0)))
  }

  /** `is_rebirth_request`. */
  predicate IsRebirthRequest(bytes: Bytes) {
    DecodePayload(bytes).Some?
    && exists i :: 0 <= i < |DecodePayload(bytes).value.metrics|
                   && DecodePayload(bytes).value.metrics[i].name == Some(REBIRTH_NAME)
                   && DecodePayload(bytes).value.metrics[i].value == Some(BooleanValue(true))
  }

  /** The capabilities a birth announces, as the ingest side tells them apart. */
  function Announced(caps: seq<(Bytes, CapabilityKind)>): seq<(Bytes, bool)> {
    seq(|caps|, i requires 0 <= i < |caps| => (caps[i].0, caps[i].1.BinarySensor? || caps[i].1.Switch?))
  }

  lemma {:induction false} BirthCapabilities(caps: seq<(Bytes, CapabilityKind)>, n: nat, now: nat)
    ensures CapabilitiesOf(DiscoveryPayload(caps, n, now).metrics) == Announced(caps)
  {
    if caps != [] {
      BirthCapabilities(caps[1..], n, now);
      assert DiscoveryPayload(caps, n, now).metrics[1..] == DiscoveryPayload(caps[1..], n, now).metrics;
      assert Announced(caps) == [Announced(caps)[0]] + Announced(caps[1..]);
    }
  }

  /**
   * A DBIRTH carries its sequence number and its capabilities to the ingest side; it is usable there
   * exactly when it announces at least one. On the wire each capability is named and typed: Boolean is
   * 11, string 12 and double 10.
   */
  lemma BirthArrives(caps: seq<(Bytes, CapabilityKind)>, n: nat, now: nat)
    requires n < 256 && PayloadFits(DiscoveryPayload(caps, n, now))
    ensures var bytes := EncodePayload(DiscoveryPayload(caps, n, now));
      && PayloadSeq(bytes) == Some(n)
      && ReadDiscovery(bytes) == (if caps == [] then None else Some(Announced(caps)))
    ensures var p := DecodePayload(EncodePayload(DiscoveryPayload(caps, n, now)));
      && p.Some? && p.value.timestamp == Some(now) && |p.value.metrics| == |caps|
      && forall i :: 0 <= i < |caps| ==>
           var kind := caps[i].1;
           var number := if kind.BinarySensor? || kind.Switch? then 11 else if kind.Button? then 12 else 10;
           p.value.metrics[i]
           == Metric(Some(caps[i].0), None, Some(now), Some(number), None, None, Some(true), None, None, None)
  {
    PayloadRoundTrip(DiscoveryPayload(caps, n, now));
    BirthCapabilities(caps, n, now);
  }

  /** A DDATA carries its sequence number to the ingest side; numbers above a byte read as absent. */
  lemma DataArrives(name: Bytes, v: StateValue, at: nat, n: nat)
    requires PayloadFits(StatePayload(name, v, at, n))
    ensures PayloadSeq(EncodePayload(StatePayload(name, v, at, n))) == if n < 256 then Some(n) else None
  {
    PayloadRoundTrip(StatePayload(name, v, at, n));
  }

  /**
   * A DDATA brings the ingest side one sample: the capability, the instant and the value, as itself
   * but for arrays, objects and nulls, which arrive as their text. It is declared as Boolean (11),
   * double (10) or string (12).
   */
  lemma StateArrives(name: Bytes, v: StateValue, at: nat, n: nat)
    requires PayloadFits(StatePayload(name, v, at, n)) && (v.Double? ==> |v.eight| == 8)
    ensures ReadStates(EncodePayload(StatePayload(name, v, at, n))) == match v
      case Flag(b) => Some(([(name, Flagged(b))], at))
      case Whole(k) => Some(([(name, Counted(k))], at))
      case Double(b) =>
        if b[7] as nat % 128 * 16 + b[6] as nat / 16 == 0x7FF then None else Some(([(name, Measured(b))], at))
      case Words(t) => Some(([(name, Said(t))], at))
      case Structured(t) => Some(([(name, Said(t))], at))
    ensures var p := DecodePayload(EncodePayload(StatePayload(name, v, at, n)));
      p.Some? && |p.value.metrics| == 1 && p.value.metrics[0].isNull == Some(false)
      && p.value.metrics[0].dataType == Some(if v.Flag? then 11 else if v.Whole? || v.Double? then 10 else 12)
  {
    var p := StatePayload(name, v, at, n);
    PayloadRoundTrip(p);
    assert ReadingsOf(p.metrics[1..]) == [];
    assert ReadingsOf(p.metrics)
        == if ReadingOf(p.metrics[0].value).Some? then [(name, ReadingOf(p.metrics[0].value).value)] else [];
  }

  /** The name of the metric that a node command asks for a rebirth with. */
  predicate SpellsRebirth(name: Option<Bytes>) {
    var text := "Node Control/Rebirth";
    name.Some? && |name.value| == |text| && forall i :: 0 <= i < |text| ==> name.value[i] == text[i] as int
  }

  /** A payload is a rebirth request exactly when one of its metrics has that name and is true. */
  lemma RebirthRequestExactly(p: Payload)
    requires PayloadFits(p)
    ensures IsRebirthRequest(EncodePayload(p))
       <==> exists i :: 0 <= i < |p.metrics| && SpellsRebirth(p.metrics[i].name)
                        && p.metrics[i].value == Some(BooleanValue(true))
  {
    PayloadRoundTrip(p);
    forall i | 0 <= i < |p.metrics|
      ensures SpellsRebirth(p.metrics[i].name) <==> p.metrics[i].name == Some(REBIRTH_NAME)
    {
      SpelledOnce(p.metrics[i].name);
    }
    assert DecodePayload(EncodePayload(p)).value.metrics == p.metrics;
    if i :| 0 <= i < |p.metrics| && SpellsRebirth(p.metrics[i].name) && p.metrics[i].value == Some(BooleanValue(true)) {
      assert p.metrics[i].name == Some(REBIRTH_NAME);
    }
  }

  lemma SpelledOnce(name: Option<Bytes>)
    ensures SpellsRebirth(name) <==> name == Some(REBIRTH_NAME)
  {
    var text := "Node Control/Rebirth";
    assert |REBIRTH_NAME| == |text|;
    assert forall i :: 0 <= i < |text| ==> REBIRTH_NAME[i] == text[i] as int;
    if SpellsRebirth(name) {
      assert name.value == REBIRTH_NAME;
    }
  }

  /**
   * The ingest side's rebirth payload triggers a rebirth, and a node birth, which names the same metric,
   * does not; both carry the number 0.
   */
  lemma RebirthRecognised(rebirth: bool, now: nat)
    requires PayloadFits(ControlPayload(rebirth, now))
    ensures IsRebirthRequest(EncodePayload(ControlPayload(rebirth, now))) == rebirth
    ensures PayloadSeq(EncodePayload(ControlPayload(rebirth, now))) == Some(0)
  {
    PayloadRoundTrip(ControlPayload(rebirth, now));
    var metrics := ControlPayload(rebirth, now).metrics;
    assert metrics[0].name == Some(REBIRTH_NAME) && metrics[0].value == Some(BooleanValue(rebirth));
  }
}

/** Device commands: the publish adapter's parser and the Python tool that writes them. */
module SparkplugCommands {
  import opened Wrappers
  import opened Octets
  import opened Varint
  import opened Wire
  import opened SparkplugPayload
  import opened SparkplugMessages
  import opened Topics
  import opened Text

  datatype Expected = ExpectBoolean | ExpectString

  datatype Route = Route(device: string, expected: map<Bytes, Expected>)

  /** Command payloads; the value of a number plays no part in any decision. */
  datatype Json = JsonBool(flag: bool) | JsonString(text: Bytes) | JsonNumber

  datatype Command = Command(device: string, capability: Bytes, payload: Json)

  function ParseMetricValue(v: Option<MetricValue>): Option<Json> {
    match v
    case Some(BooleanValue(b)) => Some(JsonBool(b))
    case Some(StringValue(s)) => Some(JsonString(s))
    case Some(IntValue(_)) => Some(JsonNumber)
    case Some(LongValue(_)) => Some(JsonNumber)
    case Some(FloatValue(b)) => if FiniteBits(b) then Some(JsonNumber) else None
    case Some(DoubleValue(b)) => if FiniteBits(b) then Some(JsonNumber) else None
    case _ => None
  }

  /** `datatype_from_u32`: numbers outside the enumeration count as undeclared. */
  function Declared(d: Option<nat>): Option<nat> {
    if d.Some? && d.value <= 34 then d else None
  }

  predicate MetricTypeMatches(expected: Expected, dataType: Option<nat>, value: Json) {
    var declared := Declared(dataType);
    match expected
    case ExpectBoolean => (declared.Some? ==> declared.value == BOOLEAN) && value.JsonBool?
    case ExpectString => (declared.Some? ==> declared.value == STRING) && value.JsonString?
  }

  /** The command one metric stands for on a route, if any. */
  function CommandOf(route: Route, m: Metric): Option<Command> {
    var name :- m.name;
    if name !in route.expected then None
    else
      var value :- ParseMetricValue(m.value);
      if MetricTypeMatches(route.expected[name], m.dataType, value)
      then Some(Command(route.device, name, value)) else None
  }

  function CommandsOf(route: Route, metrics: seq<Metric>): seq<Command> {
    if metrics == [] then []
    else
      var last := CommandOf(route, metrics[|metrics| - 1]);
      CommandsOf(route, metrics[..|metrics| - 1]) + if last.Some? then [last.value] else []
  }

  /** Undecodable payloads and payloads without a single valid command are errors. */
  function Parsed(route: Route, bytes: Bytes): Option<seq<Command>> {
    var p :- DecodePayload(bytes);
    var commands := CommandsOf(route, p.metrics);
    if commands == [] then None else Some(commands)
  }

  method ParseCommandMessages(route: Route, bytes: Bytes) returns (r: Option<seq<Command>>)
    ensures r == Parsed(route, bytes)
  {
    var payload := DecodePayload(bytes);
    if payload.None? {
      return None;
    }
    var metrics := payload.value.metrics;
    var commands: seq<Command> := [];
    for i := 0 to |metrics|
      invariant commands == CommandsOf(route, metrics[..i])
    {
      assert metrics[..i + 1][..i] == metrics[..i];
      var metric := metrics[i];
      if metric.name.None? {
        continue;
      }
      var name := metric.name.value;
      if name !in route.expected {
        continue;
      }
      var value := ParseMetricValue(metric.value);
      if value.None? {
        continue;
      }
      if !MetricTypeMatches(route.expected[name], metric.dataType, value.value) {
        continue;
      }
      commands := commands + [Command(route.device, name, value.value)];
    }
    assert metrics[..|metrics|] == metrics;
    if commands == [] {
      return None;
    }
    return Some(commands);
  }

  /** A command is passed on only to the capability's own type: switches get booleans, buttons get strings. */
  lemma {:induction false} CommandsWellTyped(route: Route, metrics: seq<Metric>)
    ensures forall c :: c in CommandsOf(route, metrics) ==>
      && c.device == route.device && c.capability in route.expected
      && (if route.expected[c.capability].ExpectBoolean? then c.payload.JsonBool? else c.payload.JsonString?)
      && exists i :: 0 <= i < |metrics| && CommandOf(route, metrics[i]) == Some(c)
  {
    if metrics != [] {
      var before := metrics[..|metrics| - 1];
      CommandsWellTyped(route, before);
      forall c | c in CommandsOf(route, metrics)
        ensures exists i :: 0 <= i < |metrics| && CommandOf(route, metrics[i]) == Some(c)
      {
        if c in CommandsOf(route, before) {
          var i :| 0 <= i < |before| && CommandOf(route, before[i]) == Some(c);
          assert metrics[i] == before[i];
        } else {
          assert CommandOf(route, metrics[|metrics| - 1]) == Some(c);
        }
      }
    }
  }

  /** A declared data type allows one of the enumeration: it is that one, none, or a number outside it. */
  predicate Allows(dataType: Option<nat>, number: nat) {
    dataType.Some? && dataType.value <= 34 ==> dataType.value == number
  }

  // ---- The Python tool ----

  method FieldKey(number: nat, wireType: nat) returns (out: Bytes)
    requires wireType < 8
    ensures out == Encoded(number * 8 + wireType)
  {
    out := EncodeVarint(number * 8 + wireType);
  }

  method FieldVarint(number: nat, value: nat) returns (out: Bytes)
    ensures out == EncodeField(Field(number, VarintValue(value)))
  {
    var key := FieldKey(number, 0);
    var encoded := EncodeVarint(value);
    out := key + encoded;
  }

  method FieldLenDelimited(number: nat, value: Bytes) returns (out: Bytes)
    ensures out == EncodeField(Field(number, Delimited(value)))
  {
    var key := FieldKey(number, 2);
    var length := EncodeVarint(|value|);
    out := key + length + value;
    assert out == key + (length + value);
  }

  function ToolMetric(name: Bytes, enabled: bool): Metric {
    NO_METRIC.(name := Some(name), dataType := Some(BOOLEAN), value := Some(BooleanValue(enabled)))
  }

  function ToolPayload(name: Bytes, enabled: bool, seqNo: Option<nat>, now: nat): Payload {
    NO_PAYLOAD.(timestamp := Some(now), metrics := [ToolMetric(name, enabled)], seqNo := seqNo)
  }

  lemma ThreeFields(a: Field, b: Field, c: Field)
    ensures EncodeFields([a, b, c]) == EncodeField(a) + EncodeField(b) + EncodeField(c)
  {
    assert [a, b, c][1..] == [b, c] && [b, c][1..] == [c] && [c][1..] == [];
    assert EncodeFields([c]) == EncodeField(c);
    assert EncodeFields([b, c]) == EncodeField(b) + EncodeField(c);
  }

  method BuildMetricBytes(name: Bytes, enabled: bool) returns (payload: Bytes)
    ensures payload == EncodeMetric(ToolMetric(name, enabled))
  {
    payload := [];
    var a := FieldLenDelimited(1, name);
    payload := payload + a;
    var b := FieldVarint(4, BOOLEAN);
    payload := payload + b;
    var c := FieldVarint(14, if enabled then 1 else 0);
    payload := payload + c;
    ThreeFields(Field(1, Delimited(name)), Field(4, VarintValue(BOOLEAN)), Field(14, VarintValue(Bit(enabled))));
    assert MetricFields(ToolMetric(name, enabled))
        == [Field(1, Delimited(name)), Field(4, VarintValue(BOOLEAN)), Field(14, VarintValue(Bit(enabled)))];
  }

  lemma ToolFields(name: Bytes, enabled: bool, seqNo: Option<nat>, now: nat)
    ensures EncodePayload(ToolPayload(name, enabled, seqNo, now))
         == EncodeField(Field(1, VarintValue(now)))
            + EncodeField(Field(2, Delimited(EncodeMetric(ToolMetric(name, enabled)))))
            + if seqNo.Some? then EncodeField(Field(3, VarintValue(seqNo.value))) else []
  {
    var a, b := Field(1, VarintValue(now)), Field(2, Delimited(EncodeMetric(ToolMetric(name, enabled))));
    assert MetricList(EncodeMetric, [ToolMetric(name, enabled)]) == [b];
    if seqNo.Some? {
      var c := Field(3, VarintValue(seqNo.value));
      assert PayloadFields(EncodeMetric, ToolPayload(name, enabled, seqNo, now)) == [a, b, c];
      ThreeFields(a, b, c);
    } else {
      assert PayloadFields(EncodeMetric, ToolPayload(name, enabled, seqNo, now)) == [a, b];
      assert [a, b][1..] == [b] && [b][1..] == [];
      assert EncodeFields([b]) == EncodeField(b);
    }
  }

  /** The timestamp and metric fields, which come before the optional sequence number. */
  method BuildPayloadHead(name: Bytes, enabled: bool, now: nat) returns (head: Bytes)
    ensures head == EncodeField(Field(1, VarintValue(now)))
                    + EncodeField(Field(2, Delimited(EncodeMetric(ToolMetric(name, enabled)))))
  {
    var metricBytes := BuildMetricBytes(name, enabled);
    var a := FieldVarint(1, now);
    var b := FieldLenDelimited(2, metricBytes);
    head := a + b;
  }

  function AsNat(n: Option<int>): Option<nat>
    requires n.Some? ==> n.value >= 0
  {
    match n
    case None => None
    case Some(v) => Some(v)
  }

  /** The tool raises an error for a negative sequence number and checks no upper limit. */
  method BuildPayloadBytes(name: Bytes, enabled: bool, seqNo: Option<int>, now: nat) returns (payload: Option<Bytes>)
    ensures seqNo.Some? && seqNo.value < 0 ==> payload == None
    ensures seqNo.None? || seqNo.value >= 0 ==>
      payload == Some(EncodePayload(ToolPayload(name, enabled, AsNat(seqNo), now)))
  {
    var head := BuildPayloadHead(name, enabled, now);
    if seqNo.None? {
      ToolFields(name, enabled, None, now);
      assert head + [] == head;
      return Some(head);
    }
    if seqNo.value < 0 {
      return None;
    }
    var c := FieldVarint(3, seqNo.value);
    ToolFields(name, enabled, AsNat(seqNo), now);
    return Some(head + c);
  }

  /** A sequence number that does not fit 64 bits makes the whole payload undecodable. */
  lemma OversizedSeqRejected(name: Bytes, enabled: bool, n: nat, now: nat)
    requires now < U64 && |EncodeMetric(ToolMetric(name, enabled))| < U64 && n >= U64
    ensures DecodePayload(EncodePayload(ToolPayload(name, enabled, Some(n), now))) == None
  {
    var a, b := Field(1, VarintValue(now)), Field(2, Delimited(EncodeMetric(ToolMetric(name, enabled))));
    var c := Field(3, VarintValue(n));
    ToolFields(name, enabled, Some(n), now);
    Wire.FieldRoundTrip(c, []);
    assert EncodeField(c) + [] == EncodeField(c) && |EncodeField(c)| > 0;
    assert ReadFields(EncodeField(c)) == None;
    FieldsRoundTrip([a, b], EncodeField(c));
    assert [a, b][1..] == [b] && [b][1..] == [];
    assert EncodeFields([b]) == EncodeField(b);
    assert EncodeFields([a, b]) == EncodeField(a) + EncodeField(b);
  }

  lemma OneMetric(route: Route, m: Metric)
    ensures CommandsOf(route, [m]) == if CommandOf(route, m).Some? then [CommandOf(route, m).value] else []
  {
    assert [m][..0] == [];
  }

  /** A payload of one metric is that metric's command, or an error. */
  lemma SingleDelivered(route: Route, p: Payload)
    requires PayloadFits(p) && |p.metrics| == 1
    ensures Parsed(route, EncodePayload(p)) == match CommandOf(route, p.metrics[0])
      case Some(c) => Some([c])
      case None => None
  {
    PayloadRoundTrip(p);
    OneMetric(route, p.metrics[0]);
    assert p.metrics == [p.metrics[0]];
  }

  /**
   * The tool's bytes give exactly one command, carrying the requested state, exactly when the sequence
   * number fits 64 bits and the route expects that name as a boolean; otherwise they are an error.
   */
  lemma ToolCommandDelivered(route: Route, name: Bytes, enabled: bool, seqNo: Option<nat>, now: nat)
    requires now < U64 && |EncodeMetric(ToolMetric(name, enabled))| < U64 && |name| < U64
    ensures Parsed(route, EncodePayload(ToolPayload(name, enabled, seqNo, now)))
         == if Fits(seqNo, U64) && name in route.expected && route.expected[name].ExpectBoolean?
            then Some([Command(route.device, name, JsonBool(enabled))]) else None
  {
    var p := ToolPayload(name, enabled, seqNo, now);
    if Fits(seqNo, U64) {
      SingleDelivered(route, p);
    } else {
      OversizedSeqRejected(name, enabled, seqNo.value, now);
    }
  }

  // ---- The tool's topic ----

  predicate AsciiAlnum(c: char) {
    'a' <= c <= 'z' || 'A' <= c <= 'Z' || '0' <= c <= '9'
  }

  /** Python's `str.isalnum` and `str.lower` on single characters outside ASCII. */
  datatype Unicode = Unicode(isAlnum: char -> bool, lower: char -> string)

  /** What Unicode's tables say of them: a lower-case form is never empty and has no underscore or slash. */
  ghost predicate Sound(u: Unicode) {
    forall c: char :: u.isAlnum(c) ==> u.lower(c) != [] && Free(u.lower(c), '_') && Free(u.lower(c), '/')
  }

  function ToolChar(c: char, u: Unicode): string {
    if c as int < 128 then [SanitizeChar(c)] else if u.isAlnum(c) then u.lower(c) else "_"
  }

  function ToolText(value: string, u: Unicode): string {
    if value == [] then [] else ToolText(value[..|value| - 1], u) + ToolChar(value[|value| - 1], u)
  }

  /** No letter or digit outside ASCII. */
  predicate Plain(value: string, u: Unicode) {
    forall i :: 0 <= i < |value| && value[i] as int >= 128 ==> !u.isAlnum(value[i])
  }

  lemma SanitizeLast(value: string)
    requires value != []
    ensures Sanitize(value) == Sanitize(value[..|value| - 1]) + [SanitizeChar(value[|value| - 1])]
  {
  }

  lemma {:induction false} ToolTextLength(value: string, u: Unicode)
    requires Sound(u)
    ensures |ToolText(value, u)| >= |value| && Free(ToolText(value, u), '/')
  {
    if value != [] {
      ToolTextLength(value[..|value| - 1], u);
    }
  }

  lemma SplitLast(a: string, b: string, c: string, d: char)
    requires a + b == c + [d] && |a| >= |c| && b != []
    ensures a == c && b == [d]
  {
    assert |b| == 1;
    assert a == (a + b)[..|a|] && c == (c + [d])[..|c|];
    assert b[0] == (a + b)[|a|];
  }

  /** The tool's text is the adapter's exactly when no character outside ASCII is a letter or a digit. */
  lemma {:induction false} ToolTextExactly(value: string, u: Unicode)
    requires Sound(u)
    ensures ToolText(value, u) == Sanitize(value) <==> Plain(value, u)
  {
    if value != [] {
      var before, c := value[..|value| - 1], value[|value| - 1];
      ToolTextExactly(before, u);
      ToolTextLength(before, u);
      SanitizeLast(value);
      assert Plain(value, u) <==> Plain(before, u) && (c as int >= 128 ==> !u.isAlnum(c)) by {
        assert forall i :: 0 <= i < |before| ==> before[i] == value[i];
      }
      if ToolText(value, u) == Sanitize(value) {
        SplitLast(ToolText(before, u), ToolChar(c, u), Sanitize(before), SanitizeChar(c));
      }
    }
  }

  method ToolSanitize(value: string, u: Unicode) returns (out: string)
    requires Sound(u)
    ensures out == Sanitize(value) <==> Plain(value, u)
    ensures out == ToolText(value, u)
  {
    out := [];
    for i := 0 to |value|
      invariant out == ToolText(value[..i], u)
    {
      assert value[..i + 1][..i] == value[..i];
      var c := value[i];
      if AsciiAlnum(c) {
        out := out + [if 'A' <= c <= 'Z' then c - 'A' + 'a' else c];
      } else if c as int >= 128 && u.isAlnum(c) {
        out := out + u.lower(c);
      } else {
        out := out + "_";
      }
    }
    assert value[..|value|] == value;
    ToolTextExactly(value, u);
  }

  lemma DifferentParts(g: string, e: string, d: string, g': string, e': string, d': string)
    requires Free(g, '/') && Free(e, '/') && Free(d, '/') && Free(g', '/') && Free(e', '/') && Free(d', '/')
    requires SPB + "/" + g + "/" + "DCMD" + "/" + e + "/" + d == SPB + "/" + g' + "/" + "DCMD" + "/" + e' + "/" + d'
    ensures g == g' && e == e' && d == d'
  {
    assert Free(SPB, '/') && Free("DCMD", '/');
    FiveParts(SPB, g, "DCMD", e, d);
    FiveParts(SPB, g', "DCMD", e', d');
  }

  /**
   * The tool publishes on the topic a device's commands are subscribed under exactly when none of the
   * three ids has a letter or a digit outside ASCII.
   */
  method ToolTopic(group: string, edge: string, device: string, u: Unicode) returns (topic: string)
    requires Sound(u)
    ensures topic == DeviceTopic("DCMD", group, edge, device) <==> Plain(group, u) && Plain(edge, u) && Plain(device, u)
  {
    var g := ToolSanitize(group, u);
    var e := ToolSanitize(edge, u);
    var d := ToolSanitize(device, u);
    topic := SPB + "/" + g + "/" + "DCMD" + "/" + e + "/" + d;
    ToolTextLength(group, u);
    ToolTextLength(edge, u);
    ToolTextLength(device, u);
    SanitizeClean(group);
    SanitizeClean(edge);
    SanitizeClean(device);
    if topic == DeviceTopic("DCMD", group, edge, device) {
      DifferentParts(g, e, d, Sanitize(group), Sanitize(edge), Sanitize(device));
    }
  }
}
