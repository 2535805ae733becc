/** ESPHome plaintext framing: a zero marker, a varint payload length, a type byte and the payload. */
module EsphomeFraming {
  import opened Wrappers
  import opened Octets
  import opened Varint

  datatype Message = Message(kind: Byte, payload: Bytes)

  function Written(m: Message): Bytes {
    [0] + Encoded(|m.payload|) + [m.kind] + m.payload
  }

  datatype ReadError = EndOfStream | BadMarker | LengthTooLong

  datatype ReadResult = Frame(frame: Bytes, rest: Bytes) | Failed(error: ReadError)

  datatype LengthResult = Length(size: nat) | NoLength(error: ReadError)

  /** How many bytes the length takes, `have` of them read before. */
  function LengthSize(s: Bytes, have: nat): LengthResult {
    if s == [] then NoLength(EndOfStream)
    else if s[0] < 128 then Length(have + 1)
    else if have + 1 > 4 then NoLength(LengthTooLong)
    else LengthSize(s[1..], have + 1)
  }

  lemma {:induction false} LengthSizeBounds(s: Bytes, have: nat)
    requires have <= 4
    ensures LengthSize(s, have).Length? ==>
      have < LengthSize(s, have).size <= 5 && LengthSize(s, have).size - have <= |s|
  {
    if s != [] && s[0] >= 128 && have + 1 <= 4 {
      LengthSizeBounds(s[1..], have + 1);
    }
  }

  function ReadFrame(s: Bytes): (r: ReadResult)
    ensures r.Frame? ==> r.frame != [] && |r.frame| + |r.rest| < |s|
  {
    if s == [] then Failed(EndOfStream)
    else if s[0] != 0 then Failed(BadMarker)
    else
      LengthSizeBounds(s[1..], 0);
      match LengthSize(s[1..], 0)
      case NoLength(e) => Failed(e)
      case Length(n) =>
        match Read(s[1..][..n])
        case None => Failed(LengthTooLong)
        case Some((payload, _)) =>
          var body := s[1 + n..];
          if |body| < payload + 1 then Failed(EndOfStream) else Frame(body[..payload + 1], body[payload + 1..])
  }

  /** The reader as it runs, with a cursor into the stream; its length loop takes at most five bytes. */
  method ReadPlaintextFrame(s: Bytes, start: nat) returns (result: ReadResult)
    requires start <= |s|
    ensures result == ReadFrame(s[start..])
  {
    if start == |s| {
      return Failed(EndOfStream);
    }
    if s[start] != 0 {
      return Failed(BadMarker);
    }
    var at := start + 1;
    var lenBytes: Bytes := [];
    ghost var afterMarker := s[start..][1..];
    assert afterMarker == s[start + 1..];
    while true
      invariant at == start + 1 + |lenBytes| <= |s| && |lenBytes| <= 4
      invariant lenBytes == afterMarker[..|lenBytes|]
      invariant LengthSize(afterMarker, 0) == LengthSize(s[at..], |lenBytes|)
      decreases 5 - |lenBytes|
    {
      if at == |s| {
        return Failed(EndOfStream);
      }
      lenBytes := lenBytes + [s[at]];
      at := at + 1;
      if s[at - 1] < 128 {
        break;
      }
      if |lenBytes| > 4 {
        return Failed(LengthTooLong);
      }
      assert s[at - 1..][1..] == s[at..];
    }
    assert lenBytes == afterMarker[..|lenBytes|];
    assert LengthSize(afterMarker, 0) == Length(|lenBytes|);
    assert s[start..][1 + |lenBytes|..] == s[at..];
    match Read(lenBytes) {
      case None => return Failed(LengthTooLong);
      case Some((payload, _)) =>
        if |s| - at < payload + 1 {
          return Failed(EndOfStream);
        }
        return Frame(s[at..][..payload + 1], s[at..][payload + 1..]);
    }
  }

  function ParseMessage(frame: Bytes): Message
    requires frame != []
  {
    Message(frame[0], frame[1..])
  }

  /** Reads frames until the stream is used up. */
  function ReadAll(s: Bytes): Option<seq<Message>>
    decreases |s|
  {
    if s == [] then Some([])
    else match ReadFrame(s)
      case Failed(_) => None
      case Frame(frame, rest) =>
        var more :- ReadAll(rest);
        Some([ParseMessage(frame)] + more)
  }

  function WrittenAll(ms: seq<Message>): Bytes {
    if ms == [] then [] else Written(ms[0]) + WrittenAll(ms[1..])
  }

  /** What a length of at most `left` bytes can say. */
  function Capacity(left: nat): (n: nat)
    ensures n >= 1
  {
    if left == 0 then 1 else 128 * Capacity(left - 1)
  }

  const LIMIT: nat := 0x8_0000_0000

  lemma LimitIsFiveBytes()
    ensures Capacity(5) == LIMIT
  {
    assert Capacity(2) == 0x4000;
  }

  lemma {:induction false} LengthOfEncoded(n: nat, rest: Bytes, have: nat)
    requires have <= 4
    ensures LengthSize(Encoded(n) + rest, have)
         == if n < Capacity(5 - have) then Length(have + |Encoded(n)|) else NoLength(LengthTooLong)
  {
    if n >= 128 {
      assert Encoded(n) + rest == [n % 128 + 128] + (Encoded(n / 128) + rest);
      if have < 4 {
        LengthOfEncoded(n / 128, rest, have + 1);
      } else {
        assert Capacity(1) == 128;
      }
    }
  }

  /**
   * A written frame reads back with whatever follows it left over, exactly when its payload is shorter
   * than 2^35 bytes; a longer one is refused for its length.
   */
  lemma FrameRoundTrip(m: Message, rest: Bytes)
    ensures ReadFrame(Written(m) + rest)
         == if |m.payload| < LIMIT then Frame([m.kind] + m.payload, rest) else Failed(LengthTooLong)
  {
    var n := |m.payload|;
    var e := Encoded(n);
    var body := [m.kind] + m.payload + rest;
    var s := Written(m) + rest;
    LimitIsFiveBytes();
    assert s == [0] + (e + body);
    assert s[1..] == e + body;
    LengthOfEncoded(n, body, 0);
    if n < LIMIT {
      assert s[1..][..|e|] == e + [];
      RoundTrip(n, []);
      assert s[1 + |e|..] == body;
      assert body[..n + 1] == [m.kind] + m.payload;
    }
  }

  /** A written frame byte by byte: a zero, the payload's length as a varint, the kind, the payload. */
  lemma FrameLayout(m: Message)
    ensures var f := Written(m);
      var at := |f| - |m.payload|;
      && at >= 3 && f[0] == 0 && Denoted(f[1..at - 1]) == |m.payload| && f[at - 1] == m.kind && f[at..] == m.payload
  {
    var e := Encoded(|m.payload|);
    EncodedMeans(|m.payload|);
    assert Written(m)[1..1 + |e|] == e;
  }

  lemma {:induction false} CutLength(n: nat, k: nat, have: nat)
    requires have <= 4 && n < Capacity(5 - have) && k < |Encoded(n)|
    ensures LengthSize(Encoded(n)[..k], have) == NoLength(EndOfStream)
  {
    if k > 0 {
      assert Encoded(n)[..k] == [n % 128 + 128] + Encoded(n / 128)[..k - 1];
      assert Capacity(1) == 128;
      CutLength(n / 128, k - 1, have + 1);
    }
  }

  lemma CutBody(m: Message, n: nat)
    requires |m.payload| < LIMIT && 1 + |Encoded(|m.payload|)| <= n < |Written(m)|
    ensures ReadFrame(Written(m)[..n]) == Failed(EndOfStream)
  {
    var e := Encoded(|m.payload|);
    var body := ([m.kind] + m.payload)[..n - 1 - |e|];
    var s := Written(m)[..n];
    LimitIsFiveBytes();
    assert s[1..] == e + body;
    LengthOfEncoded(|m.payload|, body, 0);
    assert s[1..][..|e|] == e + [];
    RoundTrip(|m.payload|, []);
    assert s[1 + |e|..] == body;
  }

  /** A short frame cut anywhere ends too early, and one with another first byte is refused for it. */
  lemma DamagedFrame(m: Message, n: nat, first: Byte, rest: Bytes)
    ensures |m.payload| < LIMIT && n < |Written(m)| ==> ReadFrame(Written(m)[..n]) == Failed(EndOfStream)
    ensures first != 0 ==> ReadFrame([first] + Written(m)[1..] + rest) == Failed(BadMarker)
  {
    var e := Encoded(|m.payload|);
    if |m.payload| < LIMIT && n < |Written(m)| {
      if n >= 1 + |e| {
        CutBody(m, n);
      } else if n > 0 {
        LimitIsFiveBytes();
        assert Written(m)[..n][1..] == e[..n - 1];
        CutLength(|m.payload|, n - 1, 0);
      }
    }
  }

  predicate AllShort(ms: seq<Message>) {
    forall i :: 0 <= i < |ms| ==> |ms[i].payload| < LIMIT
  }

  /**
   * Any concatenation of written frames reads back as the written messages with nothing left over,
   * exactly when all are short.
   */
  lemma {:induction false} StreamRoundTrip(ms: seq<Message>)
    ensures ReadAll(WrittenAll(ms)) == if AllShort(ms) then Some(ms) else None
  {
    if ms != [] {
      var rest := WrittenAll(ms[1..]);
      FrameRoundTrip(ms[0], rest);
      StreamRoundTrip(ms[1..]);
      assert ms == [ms[0]] + ms[1..];
      assert AllShort(ms) <==> |ms[0].payload| < LIMIT && AllShort(ms[1..]) by {
        assert forall i :: 1 <= i < |ms| ==> ms[i] == ms[1..][i - 1];
      }
      assert ([ms[0].kind] + ms[0].payload)[1..] == ms[0].payload;
    }
  }
}
