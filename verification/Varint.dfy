/** Base 128 varints: writing them, and the bounded 64-bit reader. */
module Varint {
  import opened Wrappers
  import opened Octets

  /** Seven bits a byte, least significant first, the high bit set on all bytes but the last. */
  function Encoded(n: nat): (b: Bytes)
    ensures |b| >= 1
  {
    if n < 128 then [n] else [n % 128 + 128] + Encoded(n / 128)
  }

  /** The Python tool's `_varint`: `& 0x7F`, `>> 7` and `| 0x80` on a non-negative integer. */
  method EncodeVarint(value: nat) returns (out: Bytes)
    ensures out == Encoded(value)
  {
    out := [];
    var rest := value;
    while true
      invariant out + Encoded(rest) == Encoded(value)
      decreases rest
    {
      var toWrite := rest % 128;
      var next := rest / 128;
      if next != 0 {
        assert Encoded(rest) == [toWrite + 128] + Encoded(next);
        out := out + [toWrite + 128];
        rest := next;
      } else {
        out := out + [toWrite];
        break;
      }
    }
  }

  /** The number that base 128 digits denote, the least significant first, whatever their high bits. */
  function Denoted(b: Bytes): nat {
    if b == [] then 0 else b[0] % 128 + 128 * Denoted(b[1..])
  }

  /** A varint denotes its number, in digits of which exactly the last has no high bit and no digit is wasted. */
  lemma {:induction false} EncodedMeans(n: nat)
    ensures var b := Encoded(n);
      && Denoted(b) == n
      && (forall i :: 0 <= i < |b| ==> (b[i] >= 128 <==> i < |b| - 1))
      && (|b| > 1 ==> b[|b| - 1] > 0)
  {
    if n >= 128 {
      EncodedMeans(n / 128);
      var rest := Encoded(n / 128);
      assert Encoded(n) == [n % 128 + 128] + rest;
      assert ([n % 128 + 128] + rest)[1..] == rest;
    } else {
      assert [n][1..] == [];
    }
  }

  /**
   * Reads a varint of at most `left` bytes, the last possible byte holding one bit only: with ten
   * bytes, the 64-bit integers.
   */
  function ReadWithin(s: Bytes, left: nat): (r: Option<(nat, Bytes)>)
    ensures r.Some? ==> |r.value.1| < |s| && r.value.0 < Bound(left)
  {
    if left == 0 || s == [] then None
    else if s[0] < 128 then if left == 1 && s[0] >= 2 then None else Some((s[0], s[1..]))
    else
      var more :- ReadWithin(s[1..], left - 1);
      Some((s[0] - 128 + 128 * more.0, more.1))
  }

  /** What `left` bytes can hold. */
  function Bound(left: nat): (n: nat)
    ensures left >= 2 ==> n >= 256
  {
    if left == 0 then 0 else if left == 1 then 2 else 128 * Bound(left - 1)
  }

  lemma TenBytesHoldU64()
    ensures Bound(10) == U64
  {
    assert Bound(4) == 0x40_0000;
    assert Bound(7) == 0x800_0000_0000;
  }

  function Read(s: Bytes): (r: Option<(nat, Bytes)>)
    ensures r.Some? ==> |r.value.1| < |s| && r.value.0 < U64
  {
    TenBytesHoldU64();
    ReadWithin(s, 10)
  }

  lemma {:induction false} WithinRoundTrip(n: nat, rest: Bytes, left: nat)
    ensures ReadWithin(Encoded(n) + rest, left) == if n < Bound(left) then Some((n, rest)) else None
  {
    if n >= 128 {
      assert Encoded(n) + rest == [n % 128 + 128] + (Encoded(n / 128) + rest);
      if left > 0 {
        WithinRoundTrip(n / 128, rest, left - 1);
      }
    } else {
      assert (Encoded(n) + rest)[1..] == rest;
    }
  }

  /** A written varint reads back, whatever follows it, exactly when it fits 64 bits. */
  lemma RoundTrip(n: nat, rest: Bytes)
    ensures Read(Encoded(n) + rest) == if n < 0x1_0000_0000_0000_0000 then Some((n, rest)) else None
  {
    TenBytesHoldU64();
    WithinRoundTrip(n, rest, 10);
  }
}
