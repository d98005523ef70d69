// The authenticated map: a path-compressed Merkle trie in an index arena with a free
// list, lazy dirty flags and cached digests.
module Tries {
  import opened Wrappers
  import opened Bytes
  import opened Integers
  import opened Digests
  import opened Commitment
  import opened Shape
  import opened Arena
  import opened TrieProofs

  // Slots are u32: 2n - 1 of them are in use for n keys.
  const MAX_LEAVES := 0x8000_0000

  class Trie {
    var nodes: seq<Cell>
    var free: seq<nat>
    var root: Option<nat>
    var len: nat
    // The tree the arena stores.
    ghost var shape: Option<Tree>

    ghost predicate Valid()
      reads this
    {
      match shape
      case None => root == None && len == 0 && ArenaOk(nodes, free, {}, 0)
      case Some(t) => root == Some(t.id) && Laid(nodes, free, t) && len == |Contents(t)|
    }

    // The key-to-digest map the trie commits to.
    ghost function Entries(): Entries
      reads this
    {
      if shape.None? then map[] else Contents(shape.value)
    }

    constructor ()
      ensures Valid() && Entries() == map[] && len == 0
    {
      nodes, free, root, len, shape := [], [], None, 0, None;
    }

    // Every slot is on the free list or reachable, and reachable slots number 2n - 1.
    lemma ArenaAccounting()
      requires Valid()
      ensures len == |Entries()|
      ensures |nodes| == |free| + (if len == 0 then 0 else 2 * len - 1)
      ensures shape.Some? ==> |Ids(shape.value)| == Size(shape.value)
    {
      if shape.Some? {
        SizeIsContents(shape.value);
        SizeIsIds(shape.value);
      }
    }

    method IsDirty() returns (stale: bool)
      requires Valid()
      ensures stale == (shape.Some? && shape.value.Dirty())
    {
      stale := root.Some? && nodes[root.value].BranchCell? && nodes[root.value].dirty;
    }

    // The commitment: node(S) of the current entries. Hashes just the stale branches.
    method Root() returns (d: Digest)
      requires Valid()
      modifies this
      ensures Valid() && Entries() == old(Entries()) && len == old(len)
      ensures d == Node(Entries()) && root == old(root)
      ensures shape.Some? ==> !shape.value.Dirty()
    {
      if root == None {
        return EMPTY;
      }
      hide Laid, Contents, Node;
      ghost var t := shape.value;
      LaidParts(nodes, free, t);
      d := Hash(root.value, t);
      CleanLaid(old(nodes), free, nodes, t);
      shape := Some(Clean(t));
    }

    method Hash(idx: nat, ghost t: Tree) returns (d: Digest)
      requires Sits(nodes, t) && Distinct(t) && Cached(t) && idx == t.id
      modifies this`nodes
      ensures |nodes| == |old(nodes)| && Sits(nodes, Clean(t)) && d == Clean(t).digest
      ensures forall id :: 0 <= id < |nodes| && id !in Ids(t) ==> nodes[id] == old(nodes)[id]
      decreases t
    {
      match nodes[idx]
      case LeafCell(_, digest) =>
        d := digest;
      case BranchCell(bit, left, right, digest, dirty) =>
        if !dirty {
          return digest;
        }
        SitsInBounds(nodes, t.right);
        assert Ids(t.left) !! Ids(t.right);
        var l := Hash(left, t.left);
        SitsFrame(old(nodes), nodes, t.right);
        ghost var leftDone := nodes;
        var r := Hash(right, t.right);
        CleanCorrect(t.left);
        CleanCorrect(t.right);
        SitsInBounds(leftDone, Clean(t.left));
        SitsFrame(leftDone, nodes, Clean(t.left));
        d := BranchDigest(bit, l, r);
        ghost var before := nodes;
        nodes := nodes[idx := BranchCell(bit, left, right, d, false)];
        SitsInBounds(before, Clean(t.left));
        SitsInBounds(before, Clean(t.right));
        SitsFrame(before, nodes, Clean(t.left));
        SitsFrame(before, nodes, Clean(t.right));
    }

    // Take a slot from the free list, or grow the arena.
    method Alloc(cell: Cell, ghost used: set<nat>, ghost size: nat) returns (i: nat)
      requires ArenaOk(nodes, free, used, size) && size < U32_BOUND
      modifies this`nodes, this`free
      ensures i !in used && i < |nodes| && nodes[i] == cell
      ensures forall id :: id in used ==> id < |old(nodes)| && id < |nodes| && nodes[id] == old(nodes)[id]
      ensures ArenaOk(nodes, free, used + {i}, size + 1)
    {
      if |free| > 0 {
        i := free[|free| - 1];
        assert i in free;
        free := free[..|free| - 1];
        nodes := nodes[i := cell];
        assert forall f :: f in free ==> f in old(free);
      } else {
        nodes := nodes + [cell];
        i := (|nodes| - 1) % U32_BOUND;
      }
    }

    method Release(i: nat, ghost used: set<nat>, ghost size: nat)
      requires ArenaOk(nodes, free, used, size) && i in used && size > 0
      modifies this`free
      ensures ArenaOk(nodes, free, used - {i}, size - 1) && free == old(free) + [i]
    {
      free := free + [i];
    }

    // Follow the bits of key down to a leaf.
    method Descend(key: Key) returns (path: seq<nat>, leaf: nat)
      requires Valid() && root.Some?
      ensures path == Path(shape.value, key) && leaf == LeafAt(shape.value, key).id
      ensures leaf < |nodes| && nodes[leaf] == LeafCell(LeafAt(shape.value, key).key, LeafAt(shape.value, key).digest)
      ensures |path| <= KEY_BITS
    {
      path, leaf := Walk(key, shape.value);
      PathDepth(shape.value, key);
    }

    method Walk(key: Key, ghost t: Tree) returns (path: seq<nat>, leaf: nat)
      requires Bits(t) && Sits(nodes, t) && root == Some(t.id)
      ensures path == Path(t, key) && leaf == LeafAt(t, key).id
      ensures leaf < |nodes| && nodes[leaf] == LeafCell(LeafAt(t, key).key, LeafAt(t, key).digest)
    {
      path := [];
      leaf := root.value;
      ghost var sub := t;
      while nodes[leaf].BranchCell?
        invariant Bits(sub) && Sits(nodes, sub) && leaf == sub.id
        invariant path + Path(sub, key) == Path(t, key)
        invariant LeafAt(sub, key) == LeafAt(t, key)
        decreases sub
      {
        var cell := nodes[leaf];
        ghost var next := Child(sub, KeyBit(key, sub.bit));
        assert path + Path(sub, key) == (path + [leaf]) + Path(next, key);
        path := path + [leaf];
        leaf := if KeyBit(key, cell.bit) then cell.right else cell.left;
        sub := next;
      }
      assert path + [] == path;
    }

    // Make the branches on a path stale.
    method Mark(path: seq<nat>)
      requires forall id :: id in path ==> id < |nodes|
      modifies this`nodes
      ensures |nodes| == |old(nodes)|
      ensures forall id :: 0 <= id < |nodes| ==> nodes[id] == if id in path then Stale(old(nodes)[id]) else old(nodes)[id]
    {
      var n := 0;
      while n < |path|
        invariant 0 <= n <= |path| && |nodes| == |old(nodes)|
        invariant forall id :: 0 <= id < |nodes| ==> nodes[id] == if id in path[..n] then Stale(old(nodes)[id]) else old(nodes)[id]
      {
        var idx := path[n];
        assert path[..n + 1] == path[..n] + [idx];
        assert idx in path;
        if nodes[idx].BranchCell? {
          nodes := nodes[idx := nodes[idx].(dirty := true)];
        }
        n := n + 1;
      }
      assert path[..n] == path;
    }

    method ReplaceChild(parent: nat, from: nat, to: nat)
      requires parent < |nodes|
      modifies this`nodes
      ensures nodes == old(nodes)[parent := Repoint(old(nodes)[parent], from, to)]
    {
      match nodes[parent]
      case BranchCell(_, left, _, _, _) =>
        if left == from {
          nodes := nodes[parent := nodes[parent].(left := to)];
        } else {
          nodes := nodes[parent := nodes[parent].(right := to)];
        }
      case LeafCell(_, _) =>
    }

    // Overwrite the leaf of a present key, or split one in for a new key.
    method Set(key: Key, digest: Digest) returns (isNew: bool)
      requires Valid() && len < MAX_LEAVES
      modifies this
      ensures Valid()
      ensures Entries() == old(Entries())[key := digest]
      ensures isNew == (key !in old(Entries())) && len == if isNew then old(len) + 1 else old(len)
    {
      if root == None {
        SetFirst(key, digest);
        return true;
      }
      var path, leaf := Descend(key);
      LookupLeaf(shape.value, key);
      var leafKey := nodes[leaf].key;
      if leafKey == key {
        SetPresent(key, digest, path, leaf);
        return false;
      }
      SplitBelow(key, digest, path, leaf, leafKey);
      isNew := true;
    }

    method SetFirst(key: Key, digest: Digest)
      requires Valid() && root == None
      modifies this
      ensures Valid() && Entries() == map[key := digest] && len == 1
    {
      var only := Alloc(LeafCell(key, digest), {}, 0);
      root := Some(only);
      len := 1;
      shape := Some(Tip(only, key, digest));
      assert {} + {only} == Ids(shape.value);
    }

    method SetPresent(key: Key, digest: Digest, path: seq<nat>, leaf: nat)
      requires Valid() && root.Some? && key in Entries()
      requires path == Path(shape.value, key) && leaf == LeafAt(shape.value, key).id
      requires leaf < |nodes| && nodes[leaf] == LeafCell(key, Entries()[key]) && LeafAt(shape.value, key).key == key
      modifies this
      ensures Valid() && Entries() == old(Entries())[key := digest] && len == old(len)
    {
      hide Laid, Contents, Path, LeafAt;
      if nodes[leaf].digest == digest {
        assert Entries()[key := digest] == Entries();
      } else {
        ghost var u;
        u := Rewrite(key, digest, path, leaf, shape.value);
        shape := Some(u);
      }
    }

    // Store a new digest in a leaf and make its ancestors stale.
    method Rewrite(key: Key, digest: Digest, path: seq<nat>, leaf: nat, ghost t: Tree) returns (ghost u: Tree)
      requires Laid(nodes, free, t) && key in Contents(t)
      requires path == Path(t, key) && leaf == LeafAt(t, key).id && LeafAt(t, key).key == key
      modifies this`nodes
      ensures Laid(nodes, free, u) && u.id == t.id
      ensures Contents(u) == Contents(t)[key := digest] && |Contents(u)| == |Contents(t)|
    {
      hide Laid, Contents;
      LeafOffPath(nodes, free, t, key);
      nodes := nodes[leaf := LeafCell(key, digest)];
      Mark(path);
      u := Overwrite(t, key, digest);
      RewriteLaid(old(nodes), free, nodes, t, key, digest);
    }

    // How many leading branches of the path decide on bits before j.
    method KeepCount(path: seq<nat>, key: Key, j: nat, ghost t: Tree) returns (keep: nat)
      requires Laid(nodes, free, t) && path == Path(t, key)
      ensures keep == KeepLen(t, key, j)
    {
      keep := |path|;
      while keep > 0
        invariant 0 <= keep <= |path|
        invariant forall m :: keep <= m < |path| ==> var s := SubAt(t, key, m); s.Fork? ==> s.bit >= j
      {
        PathCells(nodes, t, key, keep - 1);
        if nodes[path[keep - 1]].bit < j {
          break;
        }
        keep := keep - 1;
      }
      KeepLenIs(t, key, j, keep);
    }

    // The branches above the first difference stay; the new fork goes right below them, with
    // the new leaf on one side and what hung there on the other.
    method SplitBelow(key: Key, digest: Digest, path: seq<nat>, leaf: nat, leafKey: Key)
      requires Valid() && root.Some? && len < MAX_LEAVES
      requires var t := shape.value;
               path == Path(t, key) && leaf == LeafAt(t, key).id && leafKey == LeafAt(t, key).key && leafKey != key
      modifies this
      ensures Valid()
      ensures key !in old(Entries()) && Entries() == old(Entries())[key := digest] && len == old(len) + 1
    {
      hide Laid, Contents, Path, LeafAt, KeepLen;
      ghost var t := shape.value;
      var j := FirstDiffBit(key, leafKey);
      var keep := KeepCount(path, key, j, t);
      LaidSize(nodes, free, t);
      ghost var u;
      u := LinkUnder(key, digest, j, path, leaf, keep, t);
      len := len + 1;
      shape := Some(u);
    }

    method LinkUnder(key: Key, digest: Digest, j: nat, path: seq<nat>, leaf: nat, keep: nat, ghost t: Tree) returns (ghost u: Tree)
      requires Laid(nodes, free, t) && PartsAt(t, key, j) && Size(t) + 2 <= U32_BOUND && root == Some(t.id)
      requires path == Path(t, key) && leaf == LeafAt(t, key).id && keep == KeepLen(t, key, j)
      modifies this`nodes, this`free, this`root
      ensures Laid(nodes, free, u) && root == Some(u.id)
      ensures key !in Contents(t) && Contents(u) == Contents(t)[key := digest] && |Contents(u)| == |Contents(t)| + 1
    {
      var newLeaf, branch := Link(key, digest, j, path, leaf, keep, t);
      if keep == 0 {
        root := Some(branch);
      }
      GraftSound(t, key, digest, j, newLeaf, branch);
      u := Graft(t, key, digest, j, newLeaf, branch);
    }

    // Allocate the leaf and its fork, hook the fork under the last kept branch, mark the kept path.
    method Link(key: Key, digest: Digest, j: nat, path: seq<nat>, leaf: nat, keep: nat, ghost t: Tree)
      returns (newLeaf: nat, branch: nat)
      requires Bits(t) && Sits(nodes, t) && Distinct(t) && ArenaOk(nodes, free, Ids(t), Size(t)) && Size(t) + 2 <= U32_BOUND
      requires path == Path(t, key) && leaf == LeafAt(t, key).id && j < KEY_BITS && keep == KeepLen(t, key, j)
      modifies this`nodes, this`free
      ensures newLeaf !in Ids(t) && branch !in Ids(t) && newLeaf != branch
      ensures ArenaOk(nodes, free, Ids(t) + {newLeaf, branch}, Size(t) + 2)
      ensures Sits(nodes, Graft(t, key, digest, j, newLeaf, branch))
      ensures Graft(t, key, digest, j, newLeaf, branch).id == if keep == 0 then branch else t.id
    {
      PathCells(nodes, t, key, keep);
      var split := if keep == |path| then leaf else path[keep];
      newLeaf := Alloc(LeafCell(key, digest), Ids(t), Size(t));
      var (left, right) := if KeyBit(key, j) then (split, newLeaf) else (newLeaf, split);
      branch := Alloc(BranchCell(j, left, right, EMPTY, true), Ids(t) + {newLeaf}, Size(t) + 1);
      assert Ids(t) + {newLeaf} + {branch} == Ids(t) + {newLeaf, branch};
      ghost var grown := nodes;
      KeptOutside(t, key, keep);
      Hook(path, keep, split, branch);
      LinkLaid(old(nodes), grown, nodes, t, key, digest, j, newLeaf, branch);
    }

    // Point the last of the first keep branches from one child to another and mark them all.
    method Hook(path: seq<nat>, keep: nat, from: nat, to: nat)
      requires keep <= |path| && forall id :: id in path[..keep] ==> id < |nodes|
      modifies this`nodes
      ensures |nodes| == |old(nodes)|
      ensures from != to ==> forall id :: 0 <= id < |nodes| ==> nodes[id] == Kept(old(nodes), path, keep, from, to, id)
    {
      if keep > 0 {
        assert path[keep - 1] in path[..keep];
        ReplaceChild(path[keep - 1], from, to);
      }
      Mark(path[..keep]);
    }

    // Take the leaf of a present key out, and its parent with it.
    method Remove(key: Key) returns (removed: bool)
      requires Valid()
      modifies this
      ensures Valid()
      ensures Entries() == old(Entries()) - {key}
      ensures removed == (key in old(Entries())) && len == if removed then old(len) - 1 else old(len)
      ensures |nodes| == |old(nodes)| && old(free) <= free
      ensures |free| == |old(free)| + (if !removed then 0 else if old(len) == 1 then 1 else 2)
    {
      if root == None {
        return false;
      }
      var path, leaf := Descend(key);
      LookupLeaf(shape.value, key);
      if nodes[leaf].key != key {
        assert Entries() - {key} == Entries();
        return false;
      }
      RemovePresent(key, path, leaf);
      removed := true;
    }

    method RemovePresent(key: Key, path: seq<nat>, leaf: nat)
      requires Valid() && root.Some? && key in Entries()
      requires path == Path(shape.value, key) && leaf == LeafAt(shape.value, key).id && LeafAt(shape.value, key).key == key
      modifies this
      ensures Valid() && Entries() == old(Entries()) - {key} && len == old(len) - 1
      ensures |nodes| == |old(nodes)| && old(free) <= free
      ensures |free| == |old(free)| + (if old(len) == 1 then 1 else 2)
    {
      hide Laid, Path, LeafAt, Contents, Size, Ids, Bits;
      PathTip(nodes, free, shape.value, key);
      LaidSize(nodes, free, shape.value);
      if path == [] {
        RemoveLast(key, leaf);
      } else {
        ghost var u;
        u := Unlink(key, path, leaf, shape.value);
        LaidSize(nodes, free, u);
        len := len - 1;
        shape := Some(u);
      }
    }

    method RemoveLast(key: Key, leaf: nat)
      requires Valid() && shape.Some? && shape.value.Tip? && shape.value.id == leaf && shape.value.key == key
      modifies this
      ensures Valid() && Entries() == old(Entries()) - {key} && old(len) == 1 && len == 0
      ensures nodes == old(nodes) && free == old(free) + [leaf]
    {
      ghost var t := shape.value;
      assert Ids(t) == {leaf} && Contents(t) - {key} == map[];
      Release(leaf, Ids(t), Size(t));
      root := None;
      shape := None;
      assert {leaf} - {leaf} == {};
      len := len - 1;
    }

    // Give up the leaf and its parent, and put the leaf's sibling in the parent's place.
    method Unlink(key: Key, path: seq<nat>, leaf: nat, ghost t: Tree) returns (ghost u: Tree)
      requires Laid(nodes, free, t) && root == Some(t.id) && key in Contents(t)
      requires path == Path(t, key) && path != [] && leaf == LeafAt(t, key).id
      modifies this`nodes, this`free, this`root
      ensures Laid(nodes, free, u) && root == Some(u.id)
      ensures Contents(u) == Contents(t) - {key} && |Contents(u)| == |Contents(t)| - 1
      ensures |nodes| == |old(nodes)| && |free| == |old(free)| + 2 && old(free) <= free
    {
      hide Laid, Sits, Contents, Bits;
      UnlinkFacts(nodes, free, t, key);
      u := Without(t, key);
      var parent := path[|path| - 1];
      var cell := nodes[parent];
      var sibling := if cell.left == leaf then cell.right else cell.left;
      Release(leaf, Ids(t), Size(t));
      Release(parent, Ids(t) - {leaf}, Size(t) - 1);
      assert Ids(t) - {leaf} - {parent} == Ids(t) - {leaf, parent};
      if |path| == 1 {
        root := Some(sibling);
      }
      Relink(key, path, parent, sibling, t);
      UnlinkLaid(nodes, free, t, key);
    }

    method Relink(key: Key, path: seq<nat>, parent: nat, sibling: nat, ghost t: Tree)
      requires Bits(t) && Sits(nodes, t) && Distinct(t) && t.Fork?
      requires path == Path(t, key) && path != []
      requires var s := SubAt(t, key, |path| - 1);
               s.Fork? && parent == s.id && sibling == Sibling(t, key).id
      modifies this`nodes
      ensures |nodes| == |old(nodes)| && Sits(nodes, Without(t, key))
      ensures |path| > 1 ==> Without(t, key).id == t.id
      ensures |path| == 1 ==> Without(t, key).id == sibling
    {
      SitsInBounds(nodes, t);
      KeptOutside(t, key, |path| - 1);
      SubDistinct(t, key, |path| - 1);
      Hook(path, |path| - 1, parent, sibling);
      WithoutIsSplice(t, key);
      WithoutLaid(old(nodes), nodes, t, key);
    }

    // Look a key up.
    method Get(key: Key) returns (d: Option<Digest>)
      requires Valid()
      ensures d == if key in Entries() then Some(Entries()[key]) else None
    {
      if root == None {
        return None;
      }
      var _, leaf := Descend(key);
      LookupLeaf(shape.value, key);
      d := if nodes[leaf].key == key then Some(nodes[leaf].digest) else None;
    }

    // A proof of key's actual status, present or absent, against the commitment.
    method Prove(key: Key) returns (p: TrieProof)
      requires Valid()
      modifies this
      ensures Valid() && Entries() == old(Entries()) && len == old(len)
      ensures BitsInKey(p.steps) && |p.steps| <= KEY_BITS
      ensures Accepts(p, Node(Entries()), key, if key in Entries() then Some(Entries()[key]) else None)
    {
      if root == None {
        return TrieProof([], None);
      }
      var digest := Root();
      ghost var t := shape.value;
      var path, leaf := Descend(key);
      var steps := ReadSteps(path, key, t);
      p := TrieProof(steps, Some((nodes[leaf].key, nodes[leaf].digest)));
      Completeness(t, key);
    }

    method ReadSteps(path: seq<nat>, key: Key, ghost t: Tree) returns (steps: seq<(nat, Digest)>)
      requires Bits(t) && Sits(nodes, t) && path == Path(t, key)
      ensures steps == Steps(t, key) && |steps| == |path|
    {
      hide Bits, Sits, Path, Steps;
      steps := [];
      var n := 0;
      ghost var sub := t;
      while n < |path|
        invariant 0 <= n <= |path| && |steps| == n
        invariant Bits(sub) && Sits(nodes, sub)
        invariant Path(sub, key) == path[n..]
        invariant steps + Steps(sub, key) == Steps(t, key)
      {
        StepAhead(nodes, sub, key);
        assert path[n] == Path(sub, key)[0] && Path(sub, key)[1..] == path[n + 1..];
        var cell := nodes[path[n]];
        var sibling := if KeyBit(key, cell.bit) then cell.left else cell.right;
        var step := (cell.bit, nodes[sibling].digest);
        sub := Child(sub, KeyBit(key, sub.bit));
        assert steps + ([step] + Steps(sub, key)) == (steps + [step]) + Steps(sub, key);
        steps := steps + [step];
        n := n + 1;
      }
      StepsEnd(sub, key);
      assert steps + [] == steps;
    }
  }

  // One branch down a path: its cell, its step, and what is left of both below.
  lemma StepAhead(nodes: seq<Cell>, t: Tree, key: Key)
    requires Bits(t) && Sits(nodes, t) && Path(t, key) != []
    ensures t.Fork? && Path(t, key)[0] == t.id < |nodes| && nodes[t.id].BranchCell? && nodes[t.id].bit == t.bit < KEY_BITS
    ensures var next := Child(t, KeyBit(key, t.bit));
            var sibling := if KeyBit(key, t.bit) then nodes[t.id].left else nodes[t.id].right;
            && Bits(next) && Sits(nodes, next) && Path(t, key)[1..] == Path(next, key)
            && sibling < |nodes| && Steps(t, key) == [(t.bit, nodes[sibling].digest)] + Steps(next, key)
  {
  }

  lemma StepsEnd(t: Tree, key: Key)
    requires Bits(t) && Path(t, key) == []
    ensures Steps(t, key) == []
  {
  }

  lemma PathTip(nodes: seq<Cell>, free: seq<nat>, t: Tree, key: Key)
    requires Laid(nodes, free, t)
    ensures Path(t, key) == [] ==> t.Tip? && t == LeafAt(t, key)
  {
  }

  // One write after another into a new trie.
  method FromEntries(entries: seq<(Key, Digest)>) returns (t: Trie)
    requires |entries| < MAX_LEAVES
    ensures fresh(t) && t.Valid() && t.Entries() == Collected(entries)
  {
    t := new Trie();
    var n := 0;
    while n < |entries|
      invariant 0 <= n <= |entries| && fresh(t) && t.Valid() && t.len <= n
      invariant t.Entries() == Collected(entries[..n])
    {
      var (k, d) := entries[n];
      assert entries[..n + 1][..n] == entries[..n];
      var _ := t.Set(k, d);
      n := n + 1;
    }
    assert entries[..n] == entries;
  }

  // The map a list of writes leaves: the last write of a key wins.
  ghost function Collected(entries: seq<(Key, Digest)>): Entries
  {
    if entries == [] then map[]
    else
      var (k, d) := entries[|entries| - 1];
      Collected(entries[..|entries| - 1])[k := d]
  }
}
