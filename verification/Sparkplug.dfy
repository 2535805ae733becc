/** Protocol Buffers wire fields: keys, varints, fixed widths and length-delimited bytes. */
module Wire {
  import opened Wrappers
  import opened Octets
  import opened Varint

  datatype Value =
    | VarintValue(n: nat)
    | Fixed64(eight: Bytes)
    | Delimited(bytes: Bytes)
    | Fixed32(four: Bytes)

  datatype Field = Field(number: nat, value: Value)

  function WireType(v: Value): nat {
    match v
    case VarintValue(_) => 0
    case Fixed64(_) => 1
    case Delimited(_) => 2
    case Fixed32(_) => 5
  }

  const MAX_KEY: nat := U32

  predicate ValidField(f: Field) {
    && 1 <= f.number && f.number * 8 + 7 < MAX_KEY
    && match f.value
       case VarintValue(n) => n < U64
       case Fixed64(b) => |b| == 8
       case Delimited(b) => |b| < U64
       case Fixed32(b) => |b| == 4
  }

  function EncodeValue(v: Value): Bytes {
    match v
    case VarintValue(n) => Encoded(n)
    case Fixed64(b) => b
    case Delimited(b) => Encoded(|b|) + b
    case Fixed32(b) => b
  }

  function EncodeField(f: Field): Bytes {
    Encoded(f.number * 8 + WireType(f.value)) + EncodeValue(f.value)
  }

  function EncodeFields(fs: seq<Field>): Bytes {
    if fs == [] then [] else EncodeField(fs[0]) + EncodeFields(fs[1..])
  }

  function Take(s: Bytes, n: nat): Option<(Bytes, Bytes)> {
    if |s| < n then None else Some((s[..n], s[n..]))
  }

  /** One field: a 32-bit key with a positive number and a known wire type, then the value. */
  function ReadField(s: Bytes): (r: Option<(Field, Bytes)>)
    ensures r.Some? ==> |r.value.1| < |s|
  {
    var (key, rest) :- Read(s);
    if key >= MAX_KEY || key / 8 == 0 then None
    else if key % 8 == 0 then
      var (n, after) :- Read(rest);
      Some((Field(key / 8, VarintValue(n)), after))
    else if key % 8 == 1 then
      var (b, after) :- Take(rest, 8);
      Some((Field(key / 8, Fixed64(b)), after))
    else if key % 8 == 2 then
      var (n, body) :- Read(rest);
      var (b, after) :- Take(body, n);
      Some((Field(key / 8, Delimited(b)), after))
    else if key % 8 == 5 then
      var (b, after) :- Take(rest, 4);
      Some((Field(key / 8, Fixed32(b)), after))
    else None
  }

  function ReadFields(s: Bytes): Option<seq<Field>>
    decreases |s|
  {
    if s == [] then Some([])
    else
      var (f, rest) :- ReadField(s);
      var more :- ReadFields(rest);
      Some([f] + more)
  }

  lemma TakeExactly(b: Bytes, rest: Bytes)
    ensures Take(b + rest, |b|) == Some((b, rest))
  {
  }

  lemma FieldRoundTrip(f: Field, rest: Bytes)
    requires 1 <= f.number && f.number * 8 + 7 < MAX_KEY
    requires f.value.Fixed64? ==> |f.value.eight| == 8
    requires f.value.Fixed32? ==> |f.value.four| == 4
    ensures ReadField(EncodeField(f) + rest) == if ValidField(f) then Some((f, rest)) else None
  {
    var key := f.number * 8 + WireType(f.value);
    var v := EncodeValue(f.value);
    assert EncodeField(f) + rest == Encoded(key) + (v + rest);
    Varint.RoundTrip(key, v + rest);
    assert key / 8 == f.number && key % 8 == WireType(f.value);
    match f.value
    case VarintValue(n) => Varint.RoundTrip(n, rest);
    case Fixed64(b) => TakeExactly(b, rest);
    case Delimited(b) =>
      assert v + rest == Encoded(|b|) + (b + rest);
      Varint.RoundTrip(|b|, b + rest);
      TakeExactly(b, rest);
    case Fixed32(b) => TakeExactly(b, rest);
  }

  predicate AllValid(fs: seq<Field>) {
    forall i :: 0 <= i < |fs| ==> ValidField(fs[i])
  }

  lemma OneMoreField(f: Field, tail: Bytes)
    requires ValidField(f)
    ensures ReadFields(EncodeField(f) + tail)
         == if ReadFields(tail).None? then None else Some([f] + ReadFields(tail).value)
  {
    FieldRoundTrip(f, tail);
    assert |EncodeField(f)| > 0;
  }

  lemma EncodeHead(fs: seq<Field>, rest: Bytes)
    requires fs != []
    ensures EncodeFields(fs) + rest == EncodeField(fs[0]) + (EncodeFields(fs[1..]) + rest)
  {
  }

  lemma Regroup<T>(fs: seq<T>, more: seq<T>)
    requires fs != []
    ensures [fs[0]] + (fs[1..] + more) == fs + more
  {
  }

  /** Any list of valid fields survives encoding and decoding, and what follows it is read next. */
  lemma {:induction false} FieldsRoundTrip(fs: seq<Field>, rest: Bytes)
    requires AllValid(fs)
    ensures ReadFields(EncodeFields(fs) + rest)
         == if ReadFields(rest).None? then None else Some(fs + ReadFields(rest).value)
  {
    if fs == [] {
      assert EncodeFields(fs) + rest == rest;
      var more := ReadFields(rest);
      assert more.Some? ==> fs + more.value == more.value;
    } else {
      var tail := EncodeFields(fs[1..]) + rest;
      var more := ReadFields(rest);
      EncodeHead(fs, rest);
      OneMoreField(fs[0], tail);
      FieldsRoundTrip(fs[1..], rest);
      if more.Some? {
        Regroup(fs, more.value);
      }
    }
  }

  lemma FieldsAlone(fs: seq<Field>)
    requires AllValid(fs)
    ensures ReadFields(EncodeFields(fs)) == Some(fs)
  {
    FieldsRoundTrip(fs, []);
    assert EncodeFields(fs) + [] == EncodeFields(fs);
    assert fs + [] == fs;
  }
}

/** Sparkplug B payloads and metrics on the wire. */
module SparkplugPayload {
  import opened Wrappers
  import opened Octets
  import opened Wire

  const BOOLEAN: nat := 11

  datatype MetricValue =
    | IntValue(n: nat)
    | LongValue(n: nat)
    | FloatValue(four: Bytes)
    | DoubleValue(eight: Bytes)
    | BooleanValue(flag: bool)
    | StringValue(text: Bytes)
    | BytesValue(bytes: Bytes)
    | NestedValue(number: nat, message: Bytes)

  /** Strings are their UTF-8 bytes; nested messages stay encoded. */
  datatype Metric = Metric(name: Option<Bytes>, alias: Option<nat>, timestamp: Option<nat>, dataType: Option<nat>,
                           isHistorical: Option<bool>, isTransient: Option<bool>, isNull: Option<bool>,
                           metadata: Option<Bytes>, properties: Option<Bytes>, value: Option<MetricValue>)

  const NO_METRIC: Metric := Metric(None, None, None, None, None, None, None, None, None, None)

  datatype Payload = Payload(timestamp: Option<nat>, metrics: seq<Metric>, seqNo: Option<nat>, uuid: Option<Bytes>,
                             body: Option<Bytes>)

  const NO_PAYLOAD: Payload := Payload(None, [], None, None, None)

  function Bit(b: bool): nat { if b then 1 else 0 }

  // ---- Encoding, fields in the order of their numbers ----

  function OptVarint(number: nat, v: Option<nat>): seq<Field> {
    if v.None? then [] else [Field(number, VarintValue(v.value))]
  }

  function OptBool(number: nat, v: Option<bool>): seq<Field> {
    if v.None? then [] else [Field(number, VarintValue(Bit(v.value)))]
  }

  function OptBytes(number: nat, v: Option<Bytes>): seq<Field> {
    if v.None? then [] else [Field(number, Delimited(v.value))]
  }

  function ValueFields(v: Option<MetricValue>): seq<Field> {
    if v.None? then []
    else match v.value
      case IntValue(n) => [Field(10, VarintValue(n))]
      case LongValue(n) => [Field(11, VarintValue(n))]
      case FloatValue(b) => [Field(12, Fixed32(b))]
      case DoubleValue(b) => [Field(13, Fixed64(b))]
      case BooleanValue(b) => [Field(14, VarintValue(Bit(b)))]
      case StringValue(b) => [Field(15, Delimited(b))]
      case BytesValue(b) => [Field(16, Delimited(b))]
      case NestedValue(k, b) => [Field(k, Delimited(b))]
  }

  function MetricFields(m: Metric): seq<Field> {
    OptBytes(1, m.name) + OptVarint(2, m.alias) + OptVarint(3, m.timestamp) + OptVarint(4, m.dataType)
    + OptBool(5, m.isHistorical) + OptBool(6, m.isTransient) + OptBool(7, m.isNull)
    + OptBytes(8, m.metadata) + OptBytes(9, m.properties) + ValueFields(m.value)
  }

  function EncodeMetric(m: Metric): Bytes {
    EncodeFields(MetricFields(m))
  }

  /** The metrics of a payload, for any way to encode one metric. */
  function MetricList(encode: Metric -> Bytes, ms: seq<Metric>): seq<Field> {
    seq(|ms|, i requires 0 <= i < |ms| => Field(2, Delimited(encode(ms[i]))))
  }

  function PayloadFields(encode: Metric -> Bytes, p: Payload): seq<Field> {
    OptVarint(1, p.timestamp) + MetricList(encode, p.metrics) + OptVarint(3, p.seqNo) + OptBytes(4, p.uuid)
    + OptBytes(5, p.body)
  }

  function EncodePayload(p: Payload): Bytes {
    EncodeFields(PayloadFields(EncodeMetric, p))
  }

  // ---- Decoding: known fields are merged in order, a wrong wire type is an error, unknown fields are skipped ----

  function Joined(before: Option<Bytes>, more: Bytes): Option<Bytes> {
    Some(before.GetOr([]) + more)
  }

  function NestedMessage(v: Option<MetricValue>, number: nat): Bytes {
    if v.Some? && v.value.NestedValue? && v.value.number == number then v.value.message else []
  }

  function MergeMetric(m: Metric, f: Field): Option<Metric> {
    match f.number
    case 1 => if f.value.Delimited? then Some(m.(name := Some(f.value.bytes))) else None
    case 2 => if f.value.VarintValue? then Some(m.(alias := Some(f.value.n))) else None
    case 3 => if f.value.VarintValue? then Some(m.(timestamp := Some(f.value.n))) else None
    case 4 => if f.value.VarintValue? then Some(m.(dataType := Some(f.value.n % U32))) else None
    case 5 => if f.value.VarintValue? then Some(m.(isHistorical := Some(f.value.n != 0))) else None
    case 6 => if f.value.VarintValue? then Some(m.(isTransient := Some(f.value.n != 0))) else None
    case 7 => if f.value.VarintValue? then Some(m.(isNull := Some(f.value.n != 0))) else None
    case 8 => if f.value.Delimited? then Some(m.(metadata := Joined(m.metadata, f.value.bytes))) else None
    case 9 => if f.value.Delimited? then Some(m.(properties := Joined(m.properties, f.value.bytes))) else None
    case 10 => if f.value.VarintValue? then Some(m.(value := Some(IntValue(f.value.n % U32)))) else None
    case 11 => if f.value.VarintValue? then Some(m.(value := Some(LongValue(f.value.n)))) else None
    case 12 => if f.value.Fixed32? then Some(m.(value := Some(FloatValue(f.value.four)))) else None
    case 13 => if f.value.Fixed64? then Some(m.(value := Some(DoubleValue(f.value.eight)))) else None
    case 14 => if f.value.VarintValue? then Some(m.(value := Some(BooleanValue(f.value.n != 0)))) else None
    case 15 => if f.value.Delimited? then Some(m.(value := Some(StringValue(f.value.bytes)))) else None
    case 16 => if f.value.Delimited? then Some(m.(value := Some(BytesValue(f.value.bytes)))) else None
    case k =>
      if 17 <= k <= 19 then
        if f.value.Delimited? then Some(m.(value := Some(NestedValue(k, NestedMessage(m.value, k) + f.value.bytes))))
        else None
      else Some(m)
  }

  function MergeMetricFields(m: Metric, fs: seq<Field>): Option<Metric>
    decreases |fs|
  {
    if fs == [] then Some(m)
    else
      var next :- MergeMetric(m, fs[0]);
      MergeMetricFields(next, fs[1..])
  }

  function DecodeMetric(b: Bytes): Option<Metric> {
    var fs :- ReadFields(b);
    MergeMetricFields(NO_METRIC, fs)
  }

  /** Merges one field of a payload, for any way to decode one metric. */
  function MergePayload(decode: Bytes -> Option<Metric>, p: Payload, f: Field): Option<Payload> {
    match f.number
    case 1 => if f.value.VarintValue? then Some(p.(timestamp := Some(f.value.n))) else None
    case 2 =>
      if f.value.Delimited? then
        var m :- decode(f.value.bytes);
        Some(p.(metrics := p.metrics + [m]))
      else None
    case 3 => if f.value.VarintValue? then Some(p.(seqNo := Some(f.value.n))) else None
    case 4 => if f.value.Delimited? then Some(p.(uuid := Some(f.value.bytes))) else None
    case 5 => if f.value.Delimited? then Some(p.(body := Some(f.value.bytes))) else None
    case _ => Some(p)
  }

  function MergePayloadFields(decode: Bytes -> Option<Metric>, p: Payload, fs: seq<Field>): Option<Payload>
    decreases |fs|
  {
    if fs == [] then Some(p)
    else
      var next :- MergePayload(decode, p, fs[0]);
      MergePayloadFields(decode, next, fs[1..])
  }

  function DecodePayload(b: Bytes): Option<Payload> {
    var fs :- ReadFields(b);
    MergePayloadFields(DecodeMetric, NO_PAYLOAD, fs)
  }

  // ---- Round trip ----

  predicate Fits(v: Option<nat>, limit: nat) { v.Some? ==> v.value < limit }

  predicate Short(v: Option<Bytes>) { v.Some? ==> |v.value| < U64 }

  predicate ValueFits(v: Option<MetricValue>) {
    v.Some? ==> match v.value
      case IntValue(n) => n < U32
      case LongValue(n) => n < U64
      case FloatValue(b) => |b| == 4
      case DoubleValue(b) => |b| == 8
      case BooleanValue(_) => true
      case StringValue(b) => |b| < U64
      case BytesValue(b) => |b| < U64
      case NestedValue(k, b) => 17 <= k <= 19 && |b| < U64
  }

  predicate PartsFit(m: Metric) {
    && Short(m.name) && Fits(m.alias, U64) && Fits(m.timestamp, U64) && Fits(m.dataType, U32)
    && Short(m.metadata) && Short(m.properties) && ValueFits(m.value)
  }

  predicate MetricFits(m: Metric) {
    PartsFit(m) && |EncodeMetric(m)| < U64
  }

  predicate PayloadFits(p: Payload) {
    && Fits(p.timestamp, U64) && Fits(p.seqNo, U64) && Short(p.uuid) && Short(p.body)
    && forall i :: 0 <= i < |p.metrics| ==> MetricFits(p.metrics[i])
  }

  lemma {:induction false} MergeMetricConcat(m: Metric, a: seq<Field>, b: seq<Field>)
    ensures MergeMetricFields(m, a + b)
         == if MergeMetricFields(m, a).None? then None else MergeMetricFields(MergeMetricFields(m, a).value, b)
    decreases |a|
  {
    if a == [] {
      assert a + b == b;
    } else {
      assert (a + b)[1..] == a[1..] + b;
      if MergeMetric(m, a[0]).Some? {
        MergeMetricConcat(MergeMetric(m, a[0]).value, a[1..], b);
      }
    }
  }

  lemma MergeOne(m: Metric, fs: seq<Field>)
    requires |fs| <= 1
    ensures MergeMetricFields(m, fs) == if fs == [] then Some(m) else MergeMetric(m, fs[0])
  {
    if fs != [] && MergeMetric(m, fs[0]).Some? {
      assert fs[1..] == [];
    }
  }

  /** The header fields of a metric, 1 to 4. */
  lemma HeaderMerges(m: Metric)
    requires PartsFit(m)
    ensures MergeMetricFields(NO_METRIC, OptBytes(1, m.name) + OptVarint(2, m.alias) + OptVarint(3, m.timestamp)
                                         + OptVarint(4, m.dataType))
         == Some(Metric(m.name, m.alias, m.timestamp, m.dataType, None, None, None, None, None, None))
  {
    var a, b, c, d := OptBytes(1, m.name), OptVarint(2, m.alias), OptVarint(3, m.timestamp), OptVarint(4, m.dataType);
    MergeOne(NO_METRIC, a);
    var m1 := NO_METRIC.(name := m.name);
    MergeOne(m1, b);
    var m2 := m1.(alias := m.alias);
    MergeOne(m2, c);
    var m3 := m2.(timestamp := m.timestamp);
    MergeOne(m3, d);
    MergeMetricConcat(NO_METRIC, a, b);
    MergeMetricConcat(NO_METRIC, a + b, c);
    MergeMetricConcat(NO_METRIC, a + b + c, d);
  }

  /** The flag fields of a metric, 5 to 7. */
  lemma FlagsMerge(m: Metric, h: Metric, head: seq<Field>)
    requires MergeMetricFields(NO_METRIC, head) == Some(h)
    requires h.isHistorical.None? && h.isTransient.None? && h.isNull.None?
    ensures MergeMetricFields(NO_METRIC, head + OptBool(5, m.isHistorical) + OptBool(6, m.isTransient)
                                         + OptBool(7, m.isNull))
         == Some(h.(isHistorical := m.isHistorical, isTransient := m.isTransient, isNull := m.isNull))
  {
    var a, b, c := OptBool(5, m.isHistorical), OptBool(6, m.isTransient), OptBool(7, m.isNull);
    var h1 := h.(isHistorical := m.isHistorical);
    var h2 := h1.(isTransient := m.isTransient);
    MergeOne(h, a);
    MergeOne(h1, b);
    MergeOne(h2, c);
    MergeMetricConcat(NO_METRIC, head, a);
    MergeMetricConcat(NO_METRIC, head + a, b);
    MergeMetricConcat(NO_METRIC, head + a + b, c);
  }

  lemma ValueMerges(h: Metric, v: Option<MetricValue>)
    requires h.value.None? && ValueFits(v)
    ensures MergeMetricFields(h, ValueFields(v)) == Some(h.(value := v))
  {
    MergeOne(h, ValueFields(v));
    if v.Some? && v.value.NestedValue? {
      assert NestedMessage(None, v.value.number) + v.value.message == v.value.message;
    }
  }

  lemma MetadataMerges(h: Metric, v: Option<Bytes>)
    requires h.metadata.None?
    ensures MergeMetricFields(h, OptBytes(8, v)) == Some(h.(metadata := v))
  {
    MergeOne(h, OptBytes(8, v));
    assert v.Some? ==> [] + v.value == v.value;
  }

  lemma PropertiesMerge(h: Metric, v: Option<Bytes>)
    requires h.properties.None?
    ensures MergeMetricFields(h, OptBytes(9, v)) == Some(h.(properties := v))
  {
    MergeOne(h, OptBytes(9, v));
    assert v.Some? ==> [] + v.value == v.value;
  }

  /** The nested messages and the value of a metric, 8 and up. */
  lemma TailMerges(m: Metric, h: Metric, head: seq<Field>)
    requires MergeMetricFields(NO_METRIC, head) == Some(h) && ValueFits(m.value)
    requires h.metadata.None? && h.properties.None? && h.value.None?
    ensures MergeMetricFields(NO_METRIC, head + OptBytes(8, m.metadata) + OptBytes(9, m.properties)
                                         + ValueFields(m.value))
         == Some(h.(metadata := m.metadata, properties := m.properties, value := m.value))
  {
    var a, b, c := OptBytes(8, m.metadata), OptBytes(9, m.properties), ValueFields(m.value);
    var h1 := h.(metadata := m.metadata);
    MetadataMerges(h, m.metadata);
    MergeMetricConcat(NO_METRIC, head, a);
    PropertiesMerge(h1, m.properties);
    MergeMetricConcat(NO_METRIC, head + a, b);
    ValueMerges(h1.(properties := m.properties), m.value);
    MergeMetricConcat(NO_METRIC, head + a + b, c);
  }

  lemma ValidConcat(a: seq<Field>, b: seq<Field>)
    requires AllValid(a) && AllValid(b)
    ensures AllValid(a + b)
  {
  }

  lemma FourMoreValid(a: seq<Field>, b: seq<Field>, c: seq<Field>, d: seq<Field>, e: seq<Field>)
    requires AllValid(a) && AllValid(b) && AllValid(c) && AllValid(d) && AllValid(e)
    ensures AllValid(a + b + c + d + e)
  {
    ValidConcat(a, b);
    ValidConcat(a + b, c);
    ValidConcat(a + b + c, d);
    ValidConcat(a + b + c + d, e);
  }

  lemma SmallFieldValid(number: nat)
    requires 1 <= number <= 19
    ensures number * 8 + 7 < MAX_KEY
  {
  }

  lemma OptFieldsValid(number: nat, n: Option<nat>, b: Option<bool>, bytes: Option<Bytes>)
    requires 1 <= number <= 19 && Fits(n, U64) && Short(bytes)
    ensures AllValid(OptVarint(number, n)) && AllValid(OptBool(number, b)) && AllValid(OptBytes(number, bytes))
  {
    SmallFieldValid(number);
  }

  lemma ValueFieldsValid(v: Option<MetricValue>)
    requires ValueFits(v)
    ensures AllValid(ValueFields(v))
  {
  }

  lemma MetricFieldsValid(m: Metric)
    requires PartsFit(m)
    ensures AllValid(MetricFields(m))
  {
    var a, b, c, d := OptBytes(1, m.name), OptVarint(2, m.alias), OptVarint(3, m.timestamp), OptVarint(4, m.dataType);
    var e, f, g := OptBool(5, m.isHistorical), OptBool(6, m.isTransient), OptBool(7, m.isNull);
    var h, i, j := OptBytes(8, m.metadata), OptBytes(9, m.properties), ValueFields(m.value);
    PartsValid(m);
    FourMoreValid([], a, b, c, d);
    FourMoreValid([] + a + b + c + d, e, f, g, h);
    FourMoreValid([] + a + b + c + d + e + f + g + h, i, j, [], []);
    assert [] + a == a;
    assert a + b + c + d + e + f + g + h + i + j + [] == a + b + c + d + e + f + g + h + i + j;
  }

  lemma PartsValid(m: Metric)
    requires PartsFit(m)
    ensures AllValid(OptBytes(1, m.name)) && AllValid(OptVarint(2, m.alias)) && AllValid(OptVarint(3, m.timestamp))
    ensures AllValid(OptVarint(4, m.dataType)) && AllValid(OptBool(5, m.isHistorical))
    ensures AllValid(OptBool(6, m.isTransient)) && AllValid(OptBool(7, m.isNull))
    ensures AllValid(OptBytes(8, m.metadata)) && AllValid(OptBytes(9, m.properties)) && AllValid(ValueFields(m.value))
  {
    OptFieldsValid(1, None, None, m.name);
    OptFieldsValid(2, m.alias, None, None);
    OptFieldsValid(3, m.timestamp, None, None);
    OptFieldsValid(4, m.dataType, None, None);
    OptFieldsValid(5, None, m.isHistorical, None);
    OptFieldsValid(6, None, m.isTransient, None);
    OptFieldsValid(7, None, m.isNull, None);
    OptFieldsValid(8, None, None, m.metadata);
    OptFieldsValid(9, None, None, m.properties);
    ValueFieldsValid(m.value);
  }

  lemma MetricRoundTrip(m: Metric)
    requires PartsFit(m)
    ensures DecodeMetric(EncodeMetric(m)) == Some(m)
  {
    MetricFieldsValid(m);
    FieldsAlone(MetricFields(m));
    HeaderMerges(m);
    var head := OptBytes(1, m.name) + OptVarint(2, m.alias) + OptVarint(3, m.timestamp) + OptVarint(4, m.dataType);
    var h := Metric(m.name, m.alias, m.timestamp, m.dataType, None, None, None, None, None, None);
    FlagsMerge(m, h, head);
    TailMerges(m, h.(isHistorical := m.isHistorical, isTransient := m.isTransient, isNull := m.isNull),
               head + OptBool(5, m.isHistorical) + OptBool(6, m.isTransient) + OptBool(7, m.isNull));
  }

  lemma {:induction false} MergePayloadConcat(decode: Bytes -> Option<Metric>, p: Payload, a: seq<Field>, b: seq<Field>)
    ensures MergePayloadFields(decode, p, a + b)
         == if MergePayloadFields(decode, p, a).None? then None
            else MergePayloadFields(decode, MergePayloadFields(decode, p, a).value, b)
    decreases |a|
  {
    if a == [] {
      assert a + b == b;
    } else {
      assert (a + b)[1..] == a[1..] + b;
      if MergePayload(decode, p, a[0]).Some? {
        MergePayloadConcat(decode, MergePayload(decode, p, a[0]).value, a[1..], b);
      }
    }
  }

  lemma {:induction false} MetricListMerges(encode: Metric -> Bytes, decode: Bytes -> Option<Metric>, p: Payload,
                                            ms: seq<Metric>)
    requires forall i :: 0 <= i < |ms| ==> decode(encode(ms[i])) == Some(ms[i])
    ensures MergePayloadFields(decode, p, MetricList(encode, ms)) == Some(p.(metrics := p.metrics + ms))
    decreases |ms|
  {
    if ms == [] {
      assert p.metrics + ms == p.metrics;
    } else {
      assert MetricList(encode, ms)[1..] == MetricList(encode, ms[1..]);
      MetricListMerges(encode, decode, p.(metrics := p.metrics + [ms[0]]), ms[1..]);
      assert p.metrics + [ms[0]] + ms[1..] == p.metrics + ms;
    }
  }

  lemma MergeOnePayload(decode: Bytes -> Option<Metric>, p: Payload, fs: seq<Field>)
    requires |fs| <= 1
    ensures MergePayloadFields(decode, p, fs) == if fs == [] then Some(p) else MergePayload(decode, p, fs[0])
  {
    if fs != [] && MergePayload(decode, p, fs[0]).Some? {
      assert fs[1..] == [];
    }
  }

  /** The timestamp, the metrics and the sequence number of a payload. */
  lemma PayloadHeadMerges(encode: Metric -> Bytes, decode: Bytes -> Option<Metric>, p: Payload)
    requires forall i :: 0 <= i < |p.metrics| ==> decode(encode(p.metrics[i])) == Some(p.metrics[i])
    ensures MergePayloadFields(decode, NO_PAYLOAD,
                               OptVarint(1, p.timestamp) + MetricList(encode, p.metrics) + OptVarint(3, p.seqNo))
         == Some(p.(uuid := None, body := None))
  {
    var a, b, c := OptVarint(1, p.timestamp), MetricList(encode, p.metrics), OptVarint(3, p.seqNo);
    var p1 := NO_PAYLOAD.(timestamp := p.timestamp);
    MergeOnePayload(decode, NO_PAYLOAD, a);
    MetricListMerges(encode, decode, p1, p.metrics);
    assert p1.metrics + p.metrics == p.metrics;
    MergeOnePayload(decode, p1.(metrics := p.metrics), c);
    MergePayloadConcat(decode, NO_PAYLOAD, a, b);
    MergePayloadConcat(decode, NO_PAYLOAD, a + b, c);
  }

  lemma PayloadMerges(encode: Metric -> Bytes, decode: Bytes -> Option<Metric>, p: Payload)
    requires forall i :: 0 <= i < |p.metrics| ==> decode(encode(p.metrics[i])) == Some(p.metrics[i])
    ensures MergePayloadFields(decode, NO_PAYLOAD, PayloadFields(encode, p)) == Some(p)
  {
    var head := OptVarint(1, p.timestamp) + MetricList(encode, p.metrics) + OptVarint(3, p.seqNo);
    var d, e := OptBytes(4, p.uuid), OptBytes(5, p.body);
    PayloadHeadMerges(encode, decode, p);
    MergeOnePayload(decode, p.(uuid := None, body := None), d);
    MergeOnePayload(decode, p.(body := None), e);
    MergePayloadConcat(decode, NO_PAYLOAD, head, d);
    MergePayloadConcat(decode, NO_PAYLOAD, head + d, e);
  }

  lemma PayloadFieldsValid(encode: Metric -> Bytes, p: Payload)
    requires Fits(p.timestamp, U64) && Fits(p.seqNo, U64) && Short(p.uuid) && Short(p.body)
    requires forall i :: 0 <= i < |p.metrics| ==> |encode(p.metrics[i])| < U64
    ensures AllValid(PayloadFields(encode, p))
  {
    FourMoreValid(OptVarint(1, p.timestamp), MetricList(encode, p.metrics), OptVarint(3, p.seqNo), OptBytes(4, p.uuid),
                  OptBytes(5, p.body));
  }

  /** Every payload whose numbers and lengths fit their wire types decodes to itself. */
  lemma PayloadRoundTrip(p: Payload)
    requires PayloadFits(p)
    ensures DecodePayload(EncodePayload(p)) == Some(p)
  {
    PayloadFieldsValid(EncodeMetric, p);
    FieldsAlone(PayloadFields(EncodeMetric, p));
    forall i | 0 <= i < |p.metrics|
      ensures DecodeMetric(EncodeMetric(p.metrics[i])) == Some(p.metrics[i])
    {
      MetricRoundTrip(p.metrics[i]);
    }
    PayloadMerges(EncodeMetric, DecodeMetric, p);
  }
}
