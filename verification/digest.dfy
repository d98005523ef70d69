// Digests over a symbolic compression function, and the leaf and branch derivations.
//
// compress4 is a free constructor: two compressions are equal only when their inputs
// are, and no compression equals a plain four-limb block. This is the collision-free
// idealisation under which the commitment binds; nothing else about the hash is used.
module Digests {
  import opened Bytes
  import opened Integers

  // A field element: a canonical number, or one limb of a compression's output.
  datatype Felt = Num(n: nat) | Limb(of: Digest, i: nat)

  // A four-limb digest or block.
  datatype Digest =
    | Words(w0: Felt, w1: Felt, w2: Felt, w3: Felt)
    | Compress(left: Digest, right: Digest)

  const ZERO := Num(0)
  const EMPTY := Words(ZERO, ZERO, ZERO, ZERO)
  // Eight letters each, read little end first: "bbg-leaf" and "bbg-node".
  const LEAF_TAG: u64 := 0x6661_656c_2d67_6262
  const BRANCH_TAG: u64 := 0x6564_6f6e_2d67_6262
  const DIMENSION_VERSION: u64 := 4

  // The four limbs of a digest, as field elements.
  function Limbs(d: Digest): (fs: seq<Felt>)
    ensures |fs| == 4
  {
    match d
    case Words(a, b, c, e) => [a, b, c, e]
    case Compress(_, _) => [Limb(d, 0), Limb(d, 1), Limb(d, 2), Limb(d, 3)]
  }

  // The low half of a u64, then the high half.
  function U64Limbs(v: u64): (fs: seq<Felt>)
    ensures |fs| == 2
  {
    [Num(v % U32_BOUND), Num(v / U32_BOUND)]
  }

  // The i-th little-endian 32-bit limb of a key.
  function KeyLimb(key: Key, i: nat): u32
    requires i < 8
  {
    DecodeU32(key[4 * i..4 * i + 4])
  }

  // Injective encoding of a key as eight 32-bit limbs.
  function KeyLimbs(key: Key): (fs: seq<Felt>)
    ensures |fs| == 8
  {
    seq(8, i requires 0 <= i < 8 => Num(KeyLimb(key, i)))
  }

  lemma KeyLimbsInjective(a: Key, b: Key)
    requires KeyLimbs(a) == KeyLimbs(b)
    ensures a == b
  {
    forall j | 0 <= j < 32
      ensures a[j] == b[j]
    {
      var i := j / 4;
      assert KeyLimbs(a)[i] == Num(KeyLimb(a, i)) && KeyLimbs(b)[i] == Num(KeyLimb(b, i));
      U32Canonical(a[4 * i..4 * i + 4]);
      U32Canonical(b[4 * i..4 * i + 4]);
      assert a[j] == a[4 * i..4 * i + 4][j - 4 * i] && b[j] == b[4 * i..4 * i + 4][j - 4 * i];
    }
  }

  lemma U64LimbsInjective(a: u64, b: u64)
    requires U64Limbs(a) == U64Limbs(b)
    ensures a == b
  {
    assert a == U32_BOUND * (a / U32_BOUND) + a % U32_BOUND;
    assert b == U32_BOUND * (b / U32_BOUND) + b % U32_BOUND;
  }

  function At(fs: seq<Felt>, i: nat): Felt
  {
    if i < |fs| then fs[i] else ZERO
  }

  // The next block of a field sequence: four limbs, padded with zeros.
  function Block(fs: seq<Felt>): Digest
  {
    Words(At(fs, 0), At(fs, 1), At(fs, 2), At(fs, 3))
  }

  function Drop4(fs: seq<Felt>): seq<Felt>
  {
    if |fs| <= 4 then [] else fs[4..]
  }

  // Absorb a field sequence, four limbs at a time.
  function Absorb(acc: Digest, fs: seq<Felt>): Digest
    decreases |fs|
  {
    if fs == [] then acc else Absorb(Compress(acc, Block(fs)), Drop4(fs))
  }

  function LeafIv(n: nat): Digest
  {
    Words(Num(LEAF_TAG), Num(n), Num(DIMENSION_VERSION), ZERO)
  }

  // leaf(k, v)
  function LeafDigest(key: Key, vals: seq<Felt>): Digest
  {
    Absorb(Absorb(LeafIv(|vals|), KeyLimbs(key)), vals)
  }

  // branch(i, l, r)
  function BranchDigest(bit: nat, left: Digest, right: Digest): Digest
  {
    Compress(Compress(Words(Num(BRANCH_TAG), Num(bit), ZERO, ZERO), left), right)
  }

  // The loops of leaf_digest, over the two key halves and then the value chunks.
  method ComputeLeafDigest(key: Key, vals: seq<Felt>) returns (acc: Digest)
    ensures acc == LeafDigest(key, vals)
  {
    acc := LeafIv(|vals|);
    var limbs := KeyLimbs(key);
    ghost var seeded := Absorb(acc, limbs);
    var i := 0;
    while i < 8
      invariant i == 0 || i == 4 || i == 8
      invariant Absorb(acc, limbs[i..]) == seeded
    {
      assert Drop4(limbs[i..]) == limbs[i + 4..];
      acc := Compress(acc, Block(limbs[i..i + 4]));
      assert Block(limbs[i..i + 4]) == Block(limbs[i..]);
      i := i + 4;
    }
    assert acc == seeded;
    i := 0;
    while i < |vals|
      invariant 0 <= i
      invariant Absorb(acc, if i <= |vals| then vals[i..] else []) == LeafDigest(key, vals)
    {
      var end := if i + 4 <= |vals| then i + 4 else |vals|;
      assert Drop4(vals[i..]) == if i + 4 <= |vals| then vals[i + 4..] else [];
      acc := Compress(acc, Block(vals[i..end]));
      assert Block(vals[i..end]) == Block(vals[i..]);
      i := i + 4;
    }
  }

  // The block a compression chain starts from.
  function Base(d: Digest): Digest
  {
    match d
    case Words(_, _, _, _) => d
    case Compress(l, _) => Base(l)
  }

  lemma {:induction false} AbsorbKeepsBase(acc: Digest, fs: seq<Felt>)
    ensures Base(Absorb(acc, fs)) == Base(acc)
    decreases |fs|
  {
    if fs != [] {
      AbsorbKeepsBase(Compress(acc, Block(fs)), Drop4(fs));
    }
  }

  // Chains over field sequences of one length are equal only for equal starts and equal sequences.
  lemma {:induction false} AbsorbInjective(a: Digest, b: Digest, fs: seq<Felt>, gs: seq<Felt>)
    requires |fs| == |gs| && Absorb(a, fs) == Absorb(b, gs)
    ensures a == b && fs == gs
    decreases |fs|
  {
    if fs != [] {
      AbsorbInjective(Compress(a, Block(fs)), Compress(b, Block(gs)), Drop4(fs), Drop4(gs));
      forall i | 0 <= i < |fs|
        ensures fs[i] == gs[i]
      {
        if i < 4 {
          assert At(fs, i) == At(gs, i);
        } else {
          assert Drop4(fs)[i - 4] == Drop4(gs)[i - 4];
        }
      }
    }
  }

  // Two distinct records never share a digest, even with different value counts.
  lemma LeafDigestInjective(k1: Key, v1: seq<Felt>, k2: Key, v2: seq<Felt>)
    requires LeafDigest(k1, v1) == LeafDigest(k2, v2)
    ensures k1 == k2 && v1 == v2
  {
    LeafBase(k1, v1);
    LeafBase(k2, v2);
    AbsorbInjective(Absorb(LeafIv(|v1|), KeyLimbs(k1)), Absorb(LeafIv(|v2|), KeyLimbs(k2)), v1, v2);
    AbsorbInjective(LeafIv(|v1|), LeafIv(|v2|), KeyLimbs(k1), KeyLimbs(k2));
    KeyLimbsInjective(k1, k2);
  }

  lemma LeafBase(key: Key, vals: seq<Felt>)
    ensures Base(LeafDigest(key, vals)) == LeafIv(|vals|)
  {
    AbsorbKeepsBase(LeafIv(|vals|), KeyLimbs(key));
    AbsorbKeepsBase(Absorb(LeafIv(|vals|), KeyLimbs(key)), vals);
  }

  // A leaf, a branch and the empty digest are told apart by the tag their chain starts from.
  lemma DomainSeparation(key: Key, vals: seq<Felt>, bit: nat, l: Digest, r: Digest)
    ensures LeafDigest(key, vals) != BranchDigest(bit, l, r)
    ensures LeafDigest(key, vals) != EMPTY && BranchDigest(bit, l, r) != EMPTY
  {
    LeafBase(key, vals);
    var iv := Words(Num(BRANCH_TAG), Num(bit), ZERO, ZERO);
    assert Base(Compress(iv, l)) == iv;
    assert Base(BranchDigest(bit, l, r)) == iv;
  }
}
