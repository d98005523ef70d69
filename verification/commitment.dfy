// The reference: node(S), the digest of a set of (key, digest) entries, defined on the
// set alone, and what it binds.
module Commitment {
  import opened Bytes
  import opened Digests
  import opened Sorting

  type Entries = map<Key, Digest>

  // Some two keys of s differ on bit i.
  ghost predicate Splits(s: Entries, i: nat)
  {
    i < KEY_BITS && exists a, b :: a in s && b in s && !KeyBit(a, i) && KeyBit(b, i)
  }

  // No bit before i separates two keys of s, and i does.
  ghost predicate IsSplitBit(s: Entries, i: nat)
  {
    Splits(s, i) && forall j: nat :: j < i ==> !Splits(s, j)
  }

  // The entries of s whose key bit i is b.
  ghost function Side(s: Entries, i: nat, b: bool): Entries
    requires i < KEY_BITS
  {
    map k | k in s && KeyBit(k, i) == b :: s[k]
  }

  // Two distinct keys are separated by some first bit.
  lemma SplitBitExists(s: Entries)
    requires |s| > 1
    ensures exists i :: IsSplitBit(s, i)
  {
    var a :| a in s;
    assert s.Keys - {a} != {} by {
      assert |s.Keys - {a}| == |s.Keys| - 1;
    }
    var b :| b in s.Keys - {a};
    if forall i: nat | i < KEY_BITS :: KeyBit(a, i) == KeyBit(b, i) {
      AgreeEqual(a, b);
    }
    var i: nat :| i < KEY_BITS && KeyBit(a, i) != KeyBit(b, i);
    var first := FirstSplit(s, i);
  }

  lemma FirstSplit(s: Entries, n: nat) returns (i: nat)
    requires Splits(s, n)
    ensures IsSplitBit(s, i)
  {
    if j: nat :| j < n && Splits(s, j) {
      i := FirstSplit(s, j);
    } else {
      i := n;
    }
  }

  ghost function SplitBit(s: Entries): (i: nat)
    requires |s| > 1
    ensures IsSplitBit(s, i)
  {
    SplitBitExists(s);
    var i :| IsSplitBit(s, i);
    i
  }

  lemma SidesSmaller(s: Entries, i: nat)
    requires Splits(s, i)
    ensures |Side(s, i, false)| < |s| && |Side(s, i, true)| < |s|
    ensures Side(s, i, false) != map[] && Side(s, i, true) != map[]
  {
    var a, b :| a in s && b in s && !KeyBit(a, i) && KeyBit(b, i);
    assert a in Side(s, i, false) && b in Side(s, i, true);
    assert Side(s, i, false).Keys <= s.Keys - {b};
    assert Side(s, i, true).Keys <= s.Keys - {a};
    SubsetCount(Side(s, i, false).Keys, s.Keys - {b});
    SubsetCount(Side(s, i, true).Keys, s.Keys - {a});
  }

  // node(S)
  ghost function Node(s: Entries): Digest
    decreases |s|
  {
    if |s| == 0 then EMPTY
    else if |s| == 1 then
      var k :| k in s;
      s[k]
    else
      var i := SplitBit(s);
      SidesSmaller(s, i);
      BranchDigest(i, Node(Side(s, i, false)), Node(Side(s, i, true)))
  }

  lemma SplitBitUnique(s: Entries, i: nat, j: nat)
    requires IsSplitBit(s, i) && IsSplitBit(s, j)
    ensures i == j
  {
  }

  // The left side holds the smaller keys.
  lemma SidesOrdered(s: Entries, i: nat, a: Key, b: Key)
    requires IsSplitBit(s, i) && a in Side(s, i, false) && b in Side(s, i, true)
    ensures Lt(a, b)
  {
    hide Lt, KeyBit;
    forall j: nat | j < i
      ensures KeyBit(a, j) == KeyBit(b, j)
    {
      assert !Splits(s, j);
    }
    BitOrder(a, b, i);
  }

  // node(S) unfolds at any bit that is the first split.
  lemma NodeAtSplit(s: Entries, i: nat)
    requires IsSplitBit(s, i)
    ensures |s| > 1 && Node(s) == BranchDigest(i, Node(Side(s, i, false)), Node(Side(s, i, true)))
  {
    SidesSmaller(s, i);
    assert |Side(s, i, false)| >= 1;
    SplitBitUnique(s, i, SplitBit(s));
  }

  lemma NodeOfOne(s: Entries, k: Key)
    requires |s| == 1 && k in s
    ensures s == map[k := s[k]] && Node(s) == s[k]
  {
    assert |s.Keys - {k}| == 0;
    assert s.Keys == {k};
  }

  // A record of a dimension: its digest is a leaf digest under its own key.
  ghost predicate IsRecord(k: Key, d: Digest)
  {
    exists vals :: d == LeafDigest(k, vals)
  }

  ghost predicate Records(s: Entries)
  {
    forall k :: k in s ==> IsRecord(k, s[k])
  }

  lemma RecordIsNotBranch(k: Key, d: Digest, i: nat, l: Digest, r: Digest)
    requires IsRecord(k, d)
    ensures d != BranchDigest(i, l, r) && d != EMPTY
  {
    var vals :| d == LeafDigest(k, vals);
    DomainSeparation(k, vals, i, l, r);
  }

  lemma RecordBindsKey(a: Key, b: Key, d: Digest)
    requires IsRecord(a, d) && IsRecord(b, d)
    ensures a == b
  {
    var v :| d == LeafDigest(a, v);
    var w :| d == LeafDigest(b, w);
    LeafDigestInjective(a, v, b, w);
  }

  // The commitment binds the set: record sets with one commitment are one set.
  lemma {:induction false} CommitmentBinds(s: Entries, t: Entries)
    requires Records(s) && Records(t)
    requires Node(s) == Node(t)
    ensures s == t
    decreases |s| + |t|
  {
    if |s| == 0 || |t| == 0 {
      EmptyBinds(s, t);
    } else if |s| == 1 || |t| == 1 {
      SingleBinds(s, t);
    } else {
      var i, j := SplitBit(s), SplitBit(t);
      NodeAtSplit(s, i);
      NodeAtSplit(t, j);
      SidesSmaller(s, i);
      SidesSmaller(t, j);
      CommitmentBinds(Side(s, i, false), Side(t, j, false));
      CommitmentBinds(Side(s, i, true), Side(t, j, true));
      SidesBind(s, t, i);
    }
  }

  // The two sides of a set determine it.
  lemma SidesBind(s: Entries, t: Entries, i: nat)
    requires i < KEY_BITS
    requires Side(s, i, false) == Side(t, i, false) && Side(s, i, true) == Side(t, i, true)
    ensures s == t
  {
    assert forall k :: k in s ==> k in Side(s, i, KeyBit(k, i));
    assert forall k :: k in t ==> k in Side(t, i, KeyBit(k, i));
  }

  lemma EmptyBinds(s: Entries, t: Entries)
    requires Records(s) && Records(t) && Node(s) == Node(t)
    requires |s| == 0 || |t| == 0
    ensures s == t
  {
    var u := if |s| == 0 then t else s;
    if |u| == 1 {
      var k :| k in u;
      NodeOfOne(u, k);
      RecordIsNotBranch(k, u[k], 0, EMPTY, EMPTY);
    }
  }

  lemma SingleBinds(s: Entries, t: Entries)
    requires Records(s) && Records(t) && Node(s) == Node(t)
    requires |s| > 0 && |t| > 0 && (|s| == 1 || |t| == 1)
    ensures s == t
  {
    var (u, w) := if |s| == 1 then (s, t) else (t, s);
    var k :| k in u;
    NodeOfOne(u, k);
    if |w| == 1 {
      var l :| l in w;
      NodeOfOne(w, l);
      RecordBindsKey(k, l, u[k]);
    } else {
      var i := SplitBit(w);
      NodeAtSplit(w, i);
      RecordIsNotBranch(k, u[k], i, Node(Side(w, i, false)), Node(Side(w, i, true)));
    }
  }
}
