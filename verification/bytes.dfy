// Bytes, 32-byte keys and their bits.
module Bytes {
  type byte = x: int | 0 <= x < 256

  // A 32-byte key: an entity id, a trie path, a hash output.
  type Key = k: seq<byte> | |k| == 32 witness seq(32, _ => 0)

  const KEY_BITS := 256

  // b >> n: n halvings.
  function Shr(b: nat, n: nat): nat
  {
    if n == 0 then b else Shr(b, n - 1) / 2
  }

  // Bit j of a byte, most significant bit first: (b >> (7 - j)) & 1.
  predicate BitOfByte(b: byte, j: nat)
    requires j < 8
  {
    Shr(b, 7 - j) % 2 == 1
  }

  // Bits of a key are numbered from the high end of its first byte.
  predicate KeyBit(key: Key, i: nat)
    requires i < KEY_BITS
  {
    BitOfByte(key[i / 8], i % 8)
  }

  // The sum of the weights of the bits that are set.
  function FromBits(b0: bool, b1: bool, b2: bool, b3: bool, b4: bool, b5: bool, b6: bool, b7: bool): (r: nat)
  {
    (if b0 then 128 else 0) + (if b1 then 64 else 0) + (if b2 then 32 else 0) + (if b3 then 16 else 0)
    + (if b4 then 8 else 0) + (if b5 then 4 else 0) + (if b6 then 2 else 0) + (if b7 then 1 else 0)
  }

  predicate DiffBit(x: byte, y: byte, j: nat)
    requires j < 8
  {
    BitOfByte(x, j) != BitOfByte(y, j)
  }

  // x ^ y, bit by bit.
  function Xor(x: byte, y: byte): (r: nat)
  {
    FromBits(DiffBit(x, y, 0), DiffBit(x, y, 1), DiffBit(x, y, 2), DiffBit(x, y, 3),
             DiffBit(x, y, 4), DiffBit(x, y, 5), DiffBit(x, y, 6), DiffBit(x, y, 7))
  }

  // leading_zeros of a nonzero eight-bit number.
  function LeadingZeros(d: nat): nat
    requires 0 < d < 256
  {
    if d >= 128 then 0 else if d >= 64 then 1 else if d >= 32 then 2 else if d >= 16 then 3
    else if d >= 8 then 4 else if d >= 4 then 5 else if d >= 2 then 6 else 7
  }

  lemma ByteIsItsBits(x: byte)
    ensures x == FromBits(BitOfByte(x, 0), BitOfByte(x, 1), BitOfByte(x, 2), BitOfByte(x, 3),
                          BitOfByte(x, 4), BitOfByte(x, 5), BitOfByte(x, 6), BitOfByte(x, 7))
  {
    assert Shr(x, 0) == x;
    ByteFromHalvings(x, Shr(x, 1), Shr(x, 2), Shr(x, 3), Shr(x, 4), Shr(x, 5), Shr(x, 6), Shr(x, 7));
  }

  lemma ByteFromHalvings(x: byte, s1: nat, s2: nat, s3: nat, s4: nat, s5: nat, s6: nat, s7: nat)
    requires s1 == x / 2 && s2 == s1 / 2 && s3 == s2 / 2 && s4 == s3 / 2
    requires s5 == s4 / 2 && s6 == s5 / 2 && s7 == s6 / 2
    ensures x == FromBits(s7 % 2 == 1, s6 % 2 == 1, s5 % 2 == 1, s4 % 2 == 1, s3 % 2 == 1, s2 % 2 == 1, s1 % 2 == 1, x % 2 == 1)
  {
    Halvings(x, s1, s2, s3, s4);
    Halvings(s4, s5, s6, s7, s7 / 2);
    assert s7 / 2 == 0;
    BitsOf(s7 % 2, s6 % 2, s5 % 2, s4 % 2, s3 % 2, s2 % 2, s1 % 2, x % 2);
  }

  lemma BitsOf(v0: nat, v1: nat, v2: nat, v3: nat, v4: nat, v5: nat, v6: nat, v7: nat)
    requires v0 < 2 && v1 < 2 && v2 < 2 && v3 < 2 && v4 < 2 && v5 < 2 && v6 < 2 && v7 < 2
    ensures FromBits(v0 == 1, v1 == 1, v2 == 1, v3 == 1, v4 == 1, v5 == 1, v6 == 1, v7 == 1)
         == 128 * v0 + 64 * v1 + 32 * v2 + 16 * v3 + 8 * v4 + 4 * v5 + 2 * v6 + v7
  {
  }

  lemma Halvings(x: nat, x1: nat, x2: nat, x3: nat, x4: nat)
    requires x1 == x / 2 && x2 == x1 / 2 && x3 == x2 / 2 && x4 == x3 / 2
    ensures x == 16 * x4 + 8 * (x3 % 2) + 4 * (x2 % 2) + 2 * (x1 % 2) + x % 2
  {
  }

  // The exclusive or is zero just for equal bytes; its leading zeros count the leading bits in common.
  lemma XorFacts(x: byte, y: byte)
    ensures Xor(x, y) < 256
    ensures Xor(x, y) == 0 <==> x == y
    ensures x != y ==> var z := LeadingZeros(Xor(x, y));
              z < 8 && DiffBit(x, y, z) && forall j: nat :: j < z ==> !DiffBit(x, y, j)
  {
    if x != y && Xor(x, y) == 0 {
      ByteIsItsBits(x);
      ByteIsItsBits(y);
    }
  }

  // Two keys have the same first n bits.
  ghost predicate Agree(a: Key, b: Key, n: nat)
    requires n <= KEY_BITS
  {
    forall i: nat :: i < n ==> KeyBit(a, i) == KeyBit(b, i)
  }

  lemma AgreeTrans(a: Key, b: Key, c: Key, n: nat)
    requires n <= KEY_BITS && Agree(a, b, n) && Agree(b, c, n)
    ensures Agree(a, c, n) && Agree(c, a, n)
  {
  }

  // Keys whose bits all agree are equal.
  lemma AgreeEqual(a: Key, b: Key)
    requires Agree(a, b, KEY_BITS)
    ensures a == b
  {
    forall i | 0 <= i < 32
      ensures a[i] == b[i]
    {
      SameByte(a, b, KEY_BITS, i);
    }
  }

  // Skip the equal bytes; the leading zeros of the exclusive-or of the next two are the rest.
  method FirstDiffBit(a: Key, b: Key) returns (j: nat)
    requires a != b
    ensures j < KEY_BITS && KeyBit(a, j) != KeyBit(b, j) && Agree(a, b, j)
    ensures KeyBit(b, j) <==> Lt(a, b)
  {
    var i := 0;
    while i < 32
      invariant 0 <= i <= 32
      invariant forall n :: 0 <= n < i ==> a[n] == b[n]
    {
      var d := Xor(a[i], b[i]);
      XorFacts(a[i], b[i]);
      if d != 0 {
        assert DiffBit(a[i], b[i], LeadingZeros(d));
        j := i * 8 + LeadingZeros(d);
        assert j / 8 == i && j % 8 == LeadingZeros(d);
        forall n: nat | n < j
          ensures KeyBit(a, n) == KeyBit(b, n)
        {
          if n / 8 < i {
            assert a[n / 8] == b[n / 8];
          } else {
            assert n / 8 == i && n % 8 < LeadingZeros(d);
            assert !DiffBit(a[i], b[i], n % 8);
          }
        }
        OrderAt(a, b, j);
        return;
      }
      i := i + 1;
    }
    assert false;
  }

  // ---------------------------------------------------------------- byte order

  // The order of byte strings: the first difference decides, a proper prefix comes first.
  predicate Lt(a: seq<byte>, b: seq<byte>)
  {
    b != [] && (a == [] || a[0] < b[0] || (a[0] == b[0] && Lt(a[1..], b[1..])))
  }

  lemma {:induction false} LtTotal(a: seq<byte>, b: seq<byte>)
    ensures a == b || Lt(a, b) || Lt(b, a)
    ensures !(Lt(a, b) && Lt(b, a)) && !Lt(a, a)
  {
    if a != [] {
      LtTotal(a[1..], a[1..]);
    }
    if a != [] && b != [] {
      LtTotal(a[1..], b[1..]);
      if a[0] == b[0] && a[1..] == b[1..] {
        assert a == [a[0]] + a[1..] && b == [b[0]] + b[1..];
      }
    }
  }

  lemma {:induction false} LtTrans(a: seq<byte>, b: seq<byte>, c: seq<byte>)
    requires Lt(a, b) && Lt(b, c)
    ensures Lt(a, c)
  {
    if a != [] && a[0] == b[0] && b[0] == c[0] {
      LtTrans(a[1..], b[1..], c[1..]);
    }
  }

  // Concatenations order by their first parts, then by their second.
  lemma {:induction false} LtConcat(a: seq<byte>, x: seq<byte>, b: seq<byte>, y: seq<byte>)
    requires |a| == |b|
    ensures Lt(a + x, b + y) <==> Lt(a, b) || (a == b && Lt(x, y))
  {
    if a == [] {
      assert a + x == x && b + y == y;
    } else {
      assert (a + x)[1..] == a[1..] + x && (b + y)[1..] == b[1..] + y;
      LtConcat(a[1..], x, b[1..], y);
      assert a == b <==> a[0] == b[0] && a[1..] == b[1..];
    }
  }

  lemma {:induction false} LtAt(a: seq<byte>, b: seq<byte>, i: nat)
    requires i < |a| && i < |b| && a[i] < b[i] && forall n :: 0 <= n < i ==> a[n] == b[n]
    ensures Lt(a, b)
  {
    if i > 0 {
      LtAt(a[1..], b[1..], i - 1);
    }
  }

  lemma ByteLess(x: byte, y: byte, z: nat)
    requires z < 8 && !BitOfByte(x, z) && BitOfByte(y, z) && forall j: nat :: j < z ==> BitOfByte(x, j) == BitOfByte(y, j)
    ensures x < y
  {
    hide Shr, BitOfByte;
    ByteIsItsBits(x);
    ByteIsItsBits(y);
  }

  // Bit order is byte order: of two keys that first differ at a bit, the one with the bit clear is less.
  lemma BitOrder(a: Key, b: Key, n: nat)
    requires n < KEY_BITS && Agree(a, b, n) && !KeyBit(a, n) && KeyBit(b, n)
    ensures Lt(a, b)
  {
    hide BitOfByte, Lt;
    forall i | 0 <= i < n / 8
      ensures a[i] == b[i]
    {
      SameByte(a, b, n, i);
    }
    forall j: nat | j < n % 8
      ensures BitOfByte(a[n / 8], j) == BitOfByte(b[n / 8], j)
    {
      BitAt(a, b, n, n / 8, j);
    }
    ByteLess(a[n / 8], b[n / 8], n % 8);
    LtAt(a, b, n / 8);
  }

  lemma OrderAt(a: Key, b: Key, n: nat)
    requires n < KEY_BITS && Agree(a, b, n) && KeyBit(a, n) != KeyBit(b, n)
    ensures KeyBit(b, n) <==> Lt(a, b)
  {
    hide BitOfByte, Lt;
    LtTotal(a, b);
    if KeyBit(b, n) {
      BitOrder(a, b, n);
    } else {
      BitOrder(b, a, n);
    }
  }

  lemma BitAt(a: Key, b: Key, n: nat, i: nat, j: nat)
    requires n <= KEY_BITS && Agree(a, b, n) && j < 8 && 8 * i + j < n
    ensures BitOfByte(a[i], j) == BitOfByte(b[i], j)
  {
    hide BitOfByte;
    assert (8 * i + j) / 8 == i && (8 * i + j) % 8 == j;
    assert KeyBit(a, 8 * i + j) == KeyBit(b, 8 * i + j);
  }

  lemma SameByte(a: Key, b: Key, n: nat, i: nat)
    requires n <= KEY_BITS && Agree(a, b, n) && 8 * i + 8 <= n
    ensures a[i] == b[i]
  {
    hide BitOfByte;
    forall j: nat | j < 8
      ensures !DiffBit(a[i], b[i], j)
    {
      BitAt(a, b, n, i, j);
    }
    XorFacts(a[i], b[i]);
  }
}
