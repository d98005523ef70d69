// Fixed-width integers and their little- and big-endian encodings.
module Integers {
  import opened Bytes

  const U32_BOUND := 0x1_0000_0000
  const U64_BOUND := 0x1_0000_0000_0000_0000

  type u32 = x: int | 0 <= x < U32_BOUND
  type u64 = x: int | 0 <= x < U64_BOUND

  function Pow256(n: nat): (p: nat)
    ensures p > 0
  {
    if n == 0 then 1 else 256 * Pow256(n - 1)
  }

  lemma PowerWidths()
    ensures Pow256(4) == U32_BOUND && Pow256(8) == U64_BOUND
  {
    assert Pow256(2) == 0x1_0000;
    assert Pow256(4) == 256 * (256 * Pow256(2));
    assert Pow256(6) == 256 * (256 * Pow256(4));
    assert Pow256(8) == 256 * (256 * Pow256(6));
  }

  // The n low bytes of v, least significant first.
  function ToLE(v: nat, n: nat): (bs: seq<byte>)
    ensures |bs| == n
  {
    if n == 0 then [] else [v % 256] + ToLE(v / 256, n - 1)
  }

  function FromLE(bs: seq<byte>): nat
  {
    if bs == [] then 0 else bs[0] + 256 * FromLE(bs[1..])
  }

  lemma {:induction false} DecodeEncode(v: nat, n: nat)
    requires v < Pow256(n)
    ensures FromLE(ToLE(v, n)) == v
  {
    if n > 0 {
      assert v / 256 < Pow256(n - 1);
      DecodeEncode(v / 256, n - 1);
      assert ToLE(v, n)[1..] == ToLE(v / 256, n - 1);
    }
  }

  lemma {:induction false} EncodeDecode(bs: seq<byte>)
    ensures FromLE(bs) < Pow256(|bs|)
    ensures ToLE(FromLE(bs), |bs|) == bs
  {
    if bs != [] {
      EncodeDecode(bs[1..]);
      assert FromLE(bs) / 256 == FromLE(bs[1..]) && FromLE(bs) % 256 == bs[0];
      assert bs == [bs[0]] + bs[1..];
    }
  }

  // v.to_le_bytes() of a u64 and its inverse u64::from_le_bytes.
  function EncodeU64(v: u64): (bs: seq<byte>)
    ensures |bs| == 8
  {
    ToLE(v, 8)
  }

  function DecodeU64(bs: seq<byte>): u64
    requires |bs| == 8
  {
    EncodeDecode(bs);
    PowerWidths();
    FromLE(bs)
  }

  lemma U64RoundTrip(v: u64)
    ensures DecodeU64(EncodeU64(v)) == v
  {
    PowerWidths();
    DecodeEncode(v, 8);
  }

  lemma U64Canonical(bs: seq<byte>)
    requires |bs| == 8
    ensures EncodeU64(DecodeU64(bs)) == bs
  {
    EncodeDecode(bs);
  }

  function EncodeU32(v: u32): (bs: seq<byte>)
    ensures |bs| == 4
  {
    ToLE(v, 4)
  }

  function DecodeU32(bs: seq<byte>): u32
    requires |bs| == 4
  {
    EncodeDecode(bs);
    PowerWidths();
    FromLE(bs)
  }

  lemma U32RoundTrip(v: u32)
    ensures DecodeU32(EncodeU32(v)) == v
  {
    PowerWidths();
    DecodeEncode(v, 4);
  }

  lemma U32Canonical(bs: seq<byte>)
    requires |bs| == 4
    ensures EncodeU32(DecodeU32(bs)) == bs
  {
    EncodeDecode(bs);
  }

  // v.to_be_bytes() of a u64, so that byte order is number order.
  function BigEndian(h: u64): (bs: seq<byte>)
    ensures |bs| == 8
  {
    var le := EncodeU64(h);
    seq(8, i requires 0 <= i < 8 => le[7 - i])
  }

  lemma BigEndianInjective(g: u64, h: u64)
    requires BigEndian(g) == BigEndian(h)
    ensures g == h
  {
    var a, b := EncodeU64(g), EncodeU64(h);
    forall i | 0 <= i < 8
      ensures a[i] == b[i]
    {
      assert a[i] == BigEndian(g)[7 - i] && b[i] == BigEndian(h)[7 - i];
    }
    assert a == b;
    U64RoundTrip(g);
    U64RoundTrip(h);
  }

  // u64::from_be_bytes
  function DecodeBE(bs: seq<byte>): (v: u64)
    requires |bs| == 8
  {
    DecodeU64(seq(8, i requires 0 <= i < 8 => bs[7 - i]))
  }

  lemma BERoundTrip(v: u64)
    ensures DecodeBE(BigEndian(v)) == v
  {
    var le := seq(8, i requires 0 <= i < 8 => BigEndian(v)[7 - i]);
    forall i | 0 <= i < 8
      ensures le[i] == EncodeU64(v)[i]
    {
      assert BigEndian(v)[7 - i] == EncodeU64(v)[7 - (7 - i)];
    }
    assert le == EncodeU64(v);
    U64RoundTrip(v);
  }

  lemma BECanonical(bs: seq<byte>)
    requires |bs| == 8
    ensures BigEndian(DecodeBE(bs)) == bs
  {
    U64Canonical(seq(8, i requires 0 <= i < 8 => bs[7 - i]));
  }

  // The number a byte string spells, most significant byte first.
  function Spelled(bs: seq<byte>): nat
  {
    if bs == [] then 0 else bs[0] * Pow256(|bs| - 1) + Spelled(bs[1..])
  }

  lemma {:induction false} SpelledBelow(bs: seq<byte>)
    ensures Spelled(bs) < Pow256(|bs|)
  {
    if bs != [] {
      SpelledBelow(bs[1..]);
      DigitBelow(bs[0], Spelled(bs[1..]), Pow256(|bs| - 1));
    }
  }

  lemma DigitBelow(d: byte, low: nat, p: nat)
    requires low < p
    ensures d * p + low < 256 * p
  {
  }

  lemma DigitOrder(d: byte, low: nat, e: byte, other: nat, p: nat)
    requires low < p && other < p
    ensures d < e ==> d * p + low < e * p + other
    ensures d == e ==> (d * p + low < e * p + other <==> low < other)
  {
    if d < e {
      assert (d + 1) * p <= e * p;
    }
  }

  // Byte strings of one length are ordered as the numbers they spell.
  lemma {:induction false} SpelledOrder(a: seq<byte>, b: seq<byte>)
    requires |a| == |b|
    ensures Lt(a, b) <==> Spelled(a) < Spelled(b)
  {
    if a != [] {
      SpelledOrder(a[1..], b[1..]);
      SpelledBelow(a[1..]);
      SpelledBelow(b[1..]);
      DigitOrder(a[0], Spelled(a[1..]), b[0], Spelled(b[1..]), Pow256(|a| - 1));
      DigitOrder(b[0], Spelled(b[1..]), a[0], Spelled(a[1..]), Pow256(|a| - 1));
    }
  }

  lemma {:induction false} SpelledPush(bs: seq<byte>, b: byte)
    ensures Spelled(bs + [b]) == 256 * Spelled(bs) + b
  {
    if bs == [] {
      assert bs + [b] == [b];
    } else {
      SpelledPush(bs[1..], b);
      assert (bs + [b])[1..] == bs[1..] + [b];
      Shifted(bs[0], Pow256(|bs| - 1), Spelled(bs[1..]), b);
    }
  }

  lemma Shifted(d: byte, p: nat, low: nat, b: byte)
    ensures d * (256 * p) + (256 * low + b) == 256 * (d * p + low) + b
  {
  }

  lemma {:induction false} ReversedSpells(le: seq<byte>, be: seq<byte>)
    requires |be| == |le| && forall i :: 0 <= i < |le| ==> be[i] == le[|le| - 1 - i]
    ensures Spelled(be) == FromLE(le)
  {
    if le != [] {
      var n := |le| - 1;
      ReversedSpells(le[1..], be[..n]);
      SpelledPush(be[..n], be[n]);
      assert be == be[..n] + [be[n]];
    }
  }

  // Big-endian byte order is number order.
  lemma BigEndianOrder(i: u64, j: u64)
    ensures Lt(BigEndian(i), BigEndian(j)) <==> i < j
  {
    hide Lt, Spelled;
    BigEndianSpells(i);
    BigEndianSpells(j);
    SpelledOrder(BigEndian(i), BigEndian(j));
  }

  lemma BigEndianSpells(v: u64)
    ensures Spelled(BigEndian(v)) == v
  {
    hide Spelled, Pow256;
    PowerWidths();
    DecodeEncode(v, 8);
    ReversedSpells(EncodeU64(v), BigEndian(v));
  }
}
