/** The TP-Link local protocol: an autokey XOR cipher and a length-prefixed frame. */
module TplinkProtocol {
  import opened Wrappers
  import opened Octets
  import opened Sequences

  const INITIAL_KEY: Byte := 0xAB

  function Power(bits: nat): nat {
    if bits == 0 then 1 else 2 * Power(bits - 1)
  }

  /** Exclusive or, bit by bit. */
  function Xor(bits: nat, a: nat, b: nat): (r: nat)
    requires a < Power(bits) && b < Power(bits)
    ensures r < Power(bits)
  {
    if bits == 0 then 0 else 2 * Xor(bits - 1, a / 2, b / 2) + if a % 2 == b % 2 then 0 else 1
  }

  lemma {:induction false} XorTwice(bits: nat, a: nat, b: nat)
    requires a < Power(bits) && b < Power(bits)
    ensures Xor(bits, a, Xor(bits, a, b)) == b
  {
    if bits > 0 {
      XorTwice(bits - 1, a / 2, b / 2);
    }
  }

  lemma EightBits()
    ensures Power(8) == 256
  {
    assert Power(4) == 16;
  }

  function Mask(key: Byte, b: Byte): Byte {
    EightBits();
    Xor(8, key, b)
  }

  /** Each byte is masked by the cipher byte before it. */
  function Encrypted(key: Byte, plain: Bytes): (c: Bytes)
    ensures |c| == |plain|
    decreases |plain|
  {
    if plain == [] then [] else var e := Mask(key, plain[0]); [e] + Encrypted(e, plain[1..])
  }

  function Decrypted(key: Byte, cipher: Bytes): (p: Bytes)
    ensures |p| == |cipher|
    decreases |cipher|
  {
    if cipher == [] then [] else [Mask(key, cipher[0])] + Decrypted(cipher[0], cipher[1..])
  }

  method Encrypt(payload: Bytes) returns (output: Bytes)
    ensures output == Encrypted(INITIAL_KEY, payload)
  {
    var key := INITIAL_KEY;
    output := [];
    for i := 0 to |payload|
      invariant output + Encrypted(key, payload[i..]) == Encrypted(INITIAL_KEY, payload)
    {
      var encrypted := Mask(key, payload[i]);
      assert Encrypted(key, payload[i..]) == [encrypted] + Encrypted(encrypted, payload[i + 1..]);
      key := encrypted;
      output := output + [encrypted];
    }
  }

  method Decrypt(payload: Bytes) returns (output: Bytes)
    ensures output == Decrypted(INITIAL_KEY, payload)
  {
    var key := INITIAL_KEY;
    output := [];
    for i := 0 to |payload|
      invariant output + Decrypted(key, payload[i..]) == Decrypted(INITIAL_KEY, payload)
    {
      var decrypted := Mask(key, payload[i]);
      assert Decrypted(key, payload[i..]) == [decrypted] + Decrypted(payload[i], payload[i + 1..]);
      key := payload[i];
      output := output + [decrypted];
    }
  }

  lemma MaskTwice(key: Byte, b: Byte)
    ensures Mask(key, Mask(key, b)) == b
  {
    EightBits();
    XorTwice(8, key, b);
  }

  /** Decryption undoes encryption, under any starting key. */
  lemma {:induction false} DecryptEncrypted(key: Byte, plain: Bytes)
    ensures Decrypted(key, Encrypted(key, plain)) == plain
    decreases |plain|
  {
    if plain != [] {
      var e := Mask(key, plain[0]);
      var tail := Encrypted(e, plain[1..]);
      MaskTwice(key, plain[0]);
      DecryptEncrypted(e, plain[1..]);
      assert ([e] + tail)[1..] == tail;
    }
  }

  /** Encryption undoes decryption, so every byte string is the cipher of exactly one plaintext. */
  lemma {:induction false} EncryptDecrypted(key: Byte, cipher: Bytes)
    ensures Encrypted(key, Decrypted(key, cipher)) == cipher
    decreases |cipher|
  {
    if cipher != [] {
      var p := Mask(key, cipher[0]);
      var tail := Decrypted(cipher[0], cipher[1..]);
      MaskTwice(key, cipher[0]);
      EncryptDecrypted(cipher[0], cipher[1..]);
      assert ([p] + tail)[1..] == tail;
    }
  }

  function LastOr(key: Byte, cipher: Bytes): Byte {
    if cipher == [] then key else cipher[|cipher| - 1]
  }

  lemma EncryptHead(key: Byte, plain: Bytes)
    requires plain != []
    ensures Encrypted(key, plain) == [Mask(key, plain[0])] + Encrypted(Mask(key, plain[0]), plain[1..])
    ensures LastOr(key, Encrypted(key, plain))
         == LastOr(Mask(key, plain[0]), Encrypted(Mask(key, plain[0]), plain[1..]))
  {
  }

  /** A longer text encrypts piecewise, the last cipher byte of one piece keying the next. */
  lemma {:induction false} EncryptSplits(key: Byte, a: Bytes, b: Bytes)
    ensures Encrypted(key, a + b) == Encrypted(key, a) + Encrypted(LastOr(key, Encrypted(key, a)), b)
    decreases |a|
  {
    if a == [] {
      assert a + b == b;
    } else {
      var e := Mask(key, a[0]);
      EncryptHead(key, a);
      EncryptHead(key, a + b);
      HeadAndTail(a, b);
      EncryptSplits(e, a[1..], b);
      var head := Encrypted(e, a[1..]);
      Assoc([e], head, Encrypted(LastOr(e, head), b));
    }
  }

  /** `(n as u32).to_be_bytes()`: the length is truncated to 32 bits. */
  function BigEndian(n: nat): (b: Bytes)
    ensures |b| == 4
  {
    [n / 256 / 256 / 256 % 256, n / 256 / 256 % 256, n / 256 % 256, n % 256]
  }

  function FromBigEndian(b: Bytes): nat
    requires |b| == 4
  {
    b[0] as nat * 0x100_0000 + b[1] as nat * 0x1_0000 + b[2] as nat * 0x100 + b[3]
  }

  lemma Residue(n: nat, q: nat, r: nat)
    requires n == q * U32 + r && r < U32
    ensures n % U32 == r
  {
  }

  lemma BigEndianRoundTrip(n: nat)
    ensures FromBigEndian(BigEndian(n)) == n % U32
  {
    var q := n / 256 / 256 / 256 / 256;
    Residue(n, q, FromBigEndian(BigEndian(n)));
  }

  function Frame(plain: Bytes): Bytes {
    BigEndian(|plain|) + Encrypted(INITIAL_KEY, plain)
  }

  method FrameRequest(plain: Bytes) returns (frame: Bytes)
    ensures frame == Frame(plain)
  {
    var encrypted := Encrypt(plain);
    frame := [];
    frame := frame + BigEndian(|encrypted|);
    frame := frame + encrypted;
  }

  /** Binary digit `i` of a number. */
  predicate Bit(n: nat, i: nat) {
    if i == 0 then n % 2 == 1 else Bit(n / 2, i - 1)
  }

  lemma {:induction false} XorBits(bits: nat, a: nat, b: nat, i: nat)
    requires a < Power(bits) && b < Power(bits) && i < bits
    ensures Bit(Xor(bits, a, b), i) <==> Bit(a, i) != Bit(b, i)
  {
    if i > 0 {
      XorBits(bits - 1, a / 2, b / 2, i - 1);
    }
  }

  lemma MaskBits(key: Byte, b: Byte, i: nat)
    requires i < 8
    ensures Bit(Mask(key, b), i) <==> Bit(key, i) != Bit(b, i)
  {
    EightBits();
    XorBits(8, key, b, i);
  }

  lemma {:induction false} EncryptedBits(key: Byte, plain: Bytes, j: nat, i: nat)
    requires j < |plain| && i < 8
    ensures var c := Encrypted(key, plain);
      Bit(c[j], i) <==> Bit(plain[j], i) != Bit(if j == 0 then key else c[j - 1], i)
    decreases |plain|
  {
    MaskBits(key, plain[0], i);
    if j > 0 {
      EncryptedBits(Mask(key, plain[0]), plain[1..], j - 1, i);
    }
  }

  /**
   * A frame bit by bit: the length modulo 2^32, most significant byte first, and then each byte of the
   * request, its bits flipped where the frame's byte before it has ones, or 171 for the first.
   */
  lemma FrameBits(plain: Bytes, j: nat, i: nat)
    requires j < |plain| && i < 8
    ensures var f := Frame(plain);
      && |f| == 4 + |plain|
      && f[0] as nat * 0x100_0000 + f[1] as nat * 0x1_0000 + f[2] as nat * 0x100 + f[3] as nat
         == |plain| % 0x1_0000_0000
      && (Bit(f[4 + j], i) <==> Bit(plain[j], i) != Bit(if j == 0 then 171 else f[3 + j], i))
  {
    BigEndianRoundTrip(|plain|);
    EncryptedBits(INITIAL_KEY, plain, j, i);
  }

  function ParseResponse(frame: Bytes): Option<Bytes> {
    if |frame| < 4 then None
    else
      var expected := FromBigEndian(frame[..4]);
      if |frame| < 4 + expected then None else Some(Decrypted(INITIAL_KEY, frame[4..4 + expected]))
  }

  lemma ParseFraming(header: Bytes, cipher: Bytes, tail: Bytes)
    requires |header| == 4 && FromBigEndian(header) == |cipher|
    ensures ParseResponse(header + cipher + tail) == Some(Decrypted(INITIAL_KEY, cipher))
  {
    var f := header + cipher + tail;
    assert f[..4] == header;
    assert f[4..4 + |cipher|] == cipher;
  }

  /**
   * Parsing a framed request, whatever follows it, gives the request cut to its length modulo 2^32;
   * so the request itself exactly when it is shorter than 2^32 bytes.
   */
  lemma FrameRoundTrip(plain: Bytes, suffix: Bytes)
    ensures ParseResponse(Frame(plain) + suffix) == Some(plain[..|plain| % U32])
    ensures ParseResponse(Frame(plain) + suffix) == Some(plain) <==> |plain| < U32
  {
    TruncatedLength(|plain|);
    FrameCut(plain, |plain| % U32, suffix);
  }

  lemma TruncatedLength(n: nat)
    ensures n % U32 <= n && (n % U32 == n <==> n < U32)
  {
  }

  lemma FrameCut(plain: Bytes, n: nat, suffix: Bytes)
    requires n <= |plain| && n == |plain| % U32
    ensures ParseResponse(Frame(plain) + suffix) == Some(plain[..n])
    ensures plain[..n] == plain <==> n == |plain|
  {
    var a, b := plain[..n], plain[n..];
    assert a + b == plain;
    FrameReadsBack(a, b, suffix);
  }

  /** Whatever the header cuts off is left in the tail. */
  lemma FrameReadsBack(a: Bytes, b: Bytes, suffix: Bytes)
    requires |a| == |a + b| % U32
    ensures ParseResponse(Frame(a + b) + suffix) == Some(a)
  {
    var header, c := BigEndian(|a + b|), Encrypted(INITIAL_KEY, a);
    var d := Encrypted(LastOr(INITIAL_KEY, c), b);
    EncryptSplits(INITIAL_KEY, a, b);
    BigEndianRoundTrip(|a + b|);
    ParseFraming(header, c, d + suffix);
    Assoc(header, c, d);
    Assoc(header + c, d, suffix);
    DecryptEncrypted(INITIAL_KEY, a);
  }

  lemma ParseShort(header: Bytes, body: Bytes, expected: nat)
    requires |header| == 4 && FromBigEndian(header) == expected && |body| < expected
    ensures ParseResponse(header + body) == None
  {
    assert (header + body)[..4] == header;
  }

  lemma HeaderFirst(header: Bytes, rest: Bytes, n: nat)
    requires |header| <= n <= |header + rest|
    ensures (header + rest)[..n] == header + rest[..n - |header|]
  {
  }

  lemma PrefixOfLongFrame(a: Bytes, b: Bytes, n: nat)
    requires |a| == |a + b| % U32 && 4 + |a| <= n <= |Frame(a + b)|
    ensures ParseResponse(Frame(a + b)[..n]) == Some(a)
  {
    var header, c := BigEndian(|a + b|), Encrypted(INITIAL_KEY, a);
    var d := Encrypted(LastOr(INITIAL_KEY, c), b);
    EncryptSplits(INITIAL_KEY, a, b);
    BigEndianRoundTrip(|a + b|);
    HeaderFirst(header, c + d, n);
    HeaderFirst(c, d, n - 4);
    ParseFraming(header, c, d[..n - 4 - |c|]);
    Assoc(header, c, d[..n - 4 - |c|]);
    DecryptEncrypted(INITIAL_KEY, a);
  }

  lemma PrefixParses(plain: Bytes, cut: nat, n: nat)
    requires cut == |plain| % U32 <= |plain| && n <= |Frame(plain)|
    ensures ParseResponse(Frame(plain)[..n]) == if n < 4 + cut then None else Some(plain[..cut])
  {
    if n >= 4 + cut {
      assert plain == plain[..cut] + plain[cut..];
      PrefixOfLongFrame(plain[..cut], plain[cut..], n);
    } else if n >= 4 {
      HeaderFirst(BigEndian(|plain|), Encrypted(INITIAL_KEY, plain), n);
      BigEndianRoundTrip(|plain|);
      ParseShort(BigEndian(|plain|), Encrypted(INITIAL_KEY, plain)[..n - 4], cut);
    }
  }

  /**
   * A prefix of a frame parses as soon as it holds as many bytes as the truncated length says; so no
   * proper prefix does, exactly when the request is shorter than 2^32 bytes.
   */
  lemma PrefixRejected(plain: Bytes)
    ensures forall n :: 0 <= n <= |Frame(plain)| ==>
      ParseResponse(Frame(plain)[..n]) == if n < 4 + |plain| % U32 then None else Some(plain[..|plain| % U32])
    ensures (forall n :: 0 <= n < |Frame(plain)| ==> ParseResponse(Frame(plain)[..n]) == None) <==> |plain| < U32
  {
    var cut := |plain| % U32;
    TruncatedLength(|plain|);
    forall n | 0 <= n <= |Frame(plain)|
      ensures ParseResponse(Frame(plain)[..n]) == if n < 4 + cut then None else Some(plain[..cut])
    {
      PrefixParses(plain, cut, n);
    }
    if |plain| >= U32 {
      assert ParseResponse(Frame(plain)[..4 + cut]).Some?;
    }
  }
}
