// Trie proofs: the verifier, completeness on a shape, soundness of inclusion and of absence.
module TrieProofs {
  import opened Wrappers
  import opened Bytes
  import opened Digests
  import opened Commitment
  import opened Shape

  // Each step is a branch bit with the digest of the side not taken, from the root down; the
  // terminal is the leaf below the last step.
  datatype TrieProof = TrieProof(steps: seq<(nat, Digest)>, terminal: Option<(Key, Digest)>)

  // The verifier indexes the key by every step's bit.
  ghost predicate BitsInKey(steps: seq<(nat, Digest)>)
  {
    forall i :: 0 <= i < |steps| ==> steps[i].0 < KEY_BITS
  }

  ghost predicate Increasing(steps: seq<(nat, Digest)>)
  {
    forall i :: 0 <= i < |steps| - 1 ==> steps[i].0 < steps[i + 1].0
  }

  // The root digest the steps compute from the terminal digest.
  function FoldUp(key: Key, steps: seq<(nat, Digest)>, d: Digest): Digest
    requires BitsInKey(steps)
  {
    if steps == [] then d
    else
      var (bit, sibling) := steps[0];
      var inner := FoldUp(key, steps[1..], d);
      if KeyBit(key, bit) then BranchDigest(bit, sibling, inner) else BranchDigest(bit, inner, sibling)
  }

  // What the proof claims: Some(d) - key is present with leaf digest d; None - key is absent.
  ghost predicate Accepts(p: TrieProof, root: Digest, key: Key, expected: Option<Digest>)
    requires BitsInKey(p.steps)
  {
    match p.terminal
    case None => expected == None && p.steps == [] && root == EMPTY
    case Some((k, d)) =>
      && (if expected.Some? then k == key && d == expected.value else k != key)
      && Increasing(p.steps)
      && FoldUp(key, p.steps, d) == root
  }

  method Verify(p: TrieProof, root: Digest, key: Key, expected: Option<Digest>) returns (ok: bool)
    requires BitsInKey(p.steps)
    ensures ok == Accepts(p, root, key, expected)
  {
    var cur;
    match (p.terminal, expected) {
      case (None, None) =>
        return p.steps == [] && root == EMPTY;
      case (None, Some(_)) =>
        return false;
      case (Some((k, d)), Some(e)) =>
        if k != key || d != e {
          return false;
        }
        cur := d;
      case (Some((k, d)), None) =>
        if k == key {
          return false;
        }
        cur := d;
    }
    var last: Option<nat> := None;
    var i := |p.steps|;
    while i > 0
      invariant 0 <= i <= |p.steps|
      invariant cur == FoldUp(key, p.steps[i..], p.terminal.value.1)
      invariant Increasing(p.steps[i..])
      invariant last == if i < |p.steps| then Some(p.steps[i].0) else None
    {
      var (bit, sibling) := p.steps[i - 1];
      if last.Some? && bit >= last.value {
        assert !Increasing(p.steps) by {
          assert p.steps[i - 1].0 >= p.steps[i].0;
        }
        return false;
      }
      last := Some(bit);
      assert p.steps[i - 1..][1..] == p.steps[i..];
      cur := if KeyBit(key, bit) then BranchDigest(bit, sibling, cur) else BranchDigest(bit, cur, sibling);
      ghost var tail := p.steps[i - 1..];
      assert forall m :: 0 < m < |tail| ==> tail[m] == p.steps[i..][m - 1];
      assert Increasing(tail) by {
        assert forall m :: 0 <= m < |tail| - 1 ==> tail[m].0 < tail[m + 1].0;
      }
      i := i - 1;
    }
    assert p.steps[0..] == p.steps;
    return cur == root;
  }

  // ---------------------------------------------------------------- completeness

  // The steps of key's path, read off the cached digests.
  function Steps(t: Tree, key: Key): seq<(nat, Digest)>
    requires Bits(t)
  {
    if t.Tip? then []
    else
      var b := KeyBit(key, t.bit);
      [(t.bit, Child(t, !b).digest)] + Steps(Child(t, b), key)
  }

  lemma {:induction false} StepsFoldToRoot(t: Tree, key: Key)
    requires Canon(t) && Bits(t) && Cached(t) && !t.Dirty()
    ensures BitsInKey(Steps(t, key)) && Increasing(Steps(t, key))
    ensures FoldUp(key, Steps(t, key), LeafAt(t, key).digest) == Fresh(t)
    ensures t.Fork? ==> Steps(t, key) != [] && Steps(t, key)[0].0 == t.bit
  {
    if t.Fork? {
      var b := KeyBit(key, t.bit);
      var c := Child(t, b);
      StepsFoldToRoot(c, key);
      CleanIsFresh(Child(t, !b));
      if c.Fork? {
        ChildDecidesLater(t, b);
      }
      assert Steps(t, key)[1..] == Steps(c, key);
    }
  }

  // A proof read off a clean canonical shape verifies for the key's actual status.
  lemma Completeness(t: Tree, key: Key)
    requires Canon(t) && Bits(t) && Cached(t) && !t.Dirty()
    ensures var leaf := LeafAt(t, key);
            var s := Contents(t);
            BitsInKey(Steps(t, key)) && (Records(s) ==> IsRecord(leaf.key, leaf.digest))
            && Accepts(TrieProof(Steps(t, key), Some((leaf.key, leaf.digest))), Node(s), key, if key in s then Some(s[key]) else None)
  {
    StepsFoldToRoot(t, key);
    FreshIsNode(t);
    LookupLeaf(t, key);
  }

  // ---------------------------------------------------------------- soundness

  // A chain of key's bits that folds up from a record of x to node(S) ends at that record of S,
  // and key itself is stored only if it is x.
  lemma {:induction false} FoldReachesRecord(s: Entries, steps: seq<(nat, Digest)>, key: Key, x: Key, d: Digest)
    requires Records(s) && IsRecord(x, d) && BitsInKey(steps)
    requires FoldUp(key, steps, d) == Node(s)
    ensures x in s && s[x] == d && (key in s <==> key == x)
    decreases |steps|
  {
    hide KeyBit, IsRecord;
    if steps == [] {
      RecordIsNode(s, x, d);
    } else {
      var (bit, sibling) := steps[0];
      var inner := FoldUp(key, steps[1..], d);
      var (l, r) := if KeyBit(key, bit) then (sibling, inner) else (inner, sibling);
      if |s| == 1 {
        var k :| k in s;
        NodeOfOne(s, k);
        RecordIsNotBranch(k, s[k], bit, l, r);
      } else {
        RecordIsNotBranch(x, d, bit, l, r);
        var i := SplitBit(s);
        NodeAtSplit(s, i);
        FoldReachesRecord(Side(s, i, KeyBit(key, i)), steps[1..], key, x, d);
      }
    }
  }

  // A record digest that is node(S) is the one record of S.
  lemma RecordIsNode(s: Entries, x: Key, d: Digest)
    requires Records(s) && IsRecord(x, d) && d == Node(s)
    ensures s == map[x := d]
  {
    RecordIsNotBranch(x, d, 0, EMPTY, EMPTY);
    if |s| == 1 {
      var k :| k in s;
      NodeOfOne(s, k);
      RecordBindsKey(k, x, d);
    } else {
      var i := SplitBit(s);
      NodeAtSplit(s, i);
      RecordIsNotBranch(x, d, i, Node(Side(s, i, false)), Node(Side(s, i, true)));
    }
  }

  // Inclusion soundness: whatever the proof object, if it verifies a record against the
  // root of a trie of records, that record is stored under its key.
  lemma InclusionSound(s: Entries, p: TrieProof, key: Key, vals: seq<Felt>)
    requires Records(s) && BitsInKey(p.steps)
    requires Accepts(p, Node(s), key, Some(LeafDigest(key, vals)))
    ensures key in s && s[key] == LeafDigest(key, vals)
  {
    assert IsRecord(key, LeafDigest(key, vals));
    FoldReachesRecord(s, p.steps, key, key, LeafDigest(key, vals));
  }

  // Nothing ties the terminal digest to the terminal key: relabelling the terminal of a
  // present key's own proof makes it an accepted proof that the key is absent.
  lemma AbsenceRelabelled(t: Tree, key: Key, k: Key)
    requires Canon(t) && Bits(t) && Cached(t) && !t.Dirty()
    requires key in Contents(t) && k != key
    ensures var p := TrieProof(Steps(t, key), Some((k, Contents(t)[key])));
            BitsInKey(p.steps) && Accepts(p, Node(Contents(t)), key, None)
  {
    Completeness(t, key);
  }

  // An accepted proof of absence that ends at the record of x shows that x is stored; so its
  // key is absent exactly if the record it ends at is not the key's own.
  lemma AbsenceExact(s: Entries, p: TrieProof, key: Key, x: Key)
    requires Records(s) && BitsInKey(p.steps) && Accepts(p, Node(s), key, None)
    requires p.terminal.Some? && IsRecord(x, p.terminal.value.1)
    ensures x in s && s[x] == p.terminal.value.1
    ensures key !in s <==> !IsRecord(key, p.terminal.value.1)
  {
    var d := p.terminal.value.1;
    FoldReachesRecord(s, p.steps, key, x, d);
    if IsRecord(key, d) {
      RecordBindsKey(key, x, d);
    }
  }

  // Absence soundness for a caller that checks the terminal digest against the terminal key.
  lemma AbsenceSound(s: Entries, p: TrieProof, key: Key)
    requires Records(s) && BitsInKey(p.steps) && Accepts(p, Node(s), key, None)
    requires p.terminal.Some? ==> IsRecord(p.terminal.value.0, p.terminal.value.1)
    ensures key !in s
  {
    match p.terminal {
      case None =>
        EmptyBinds(s, map[]);
      case Some((k, d)) =>
        AbsenceExact(s, p, key, k);
        FoldReachesRecord(s, p.steps, key, k, d);
    }
  }
}
