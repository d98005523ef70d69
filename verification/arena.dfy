// A shape laid out in an index arena, and what replacing a subtree does to the cells.
module Arena {
  import opened Bytes
  import opened Digests
  import opened Commitment
  import opened Shape

  datatype Cell =
    | LeafCell(key: Key, digest: Digest)
    | BranchCell(bit: nat, left: nat, right: nat, digest: Digest, dirty: bool)

  // The arena stores t: every node sits in its slot, pointing at its children's slots.
  ghost predicate Sits(nodes: seq<Cell>, t: Tree)
  {
    t.id < |nodes|
    && match t
       case Tip(id, k, d) => nodes[id] == LeafCell(k, d)
       case Fork(id, i, l, r, d, stale) =>
         nodes[id] == BranchCell(i, l.id, r.id, d, stale) && Sits(nodes, l) && Sits(nodes, r)
  }

  lemma {:induction false} SitsFrame(nodes: seq<Cell>, nodes': seq<Cell>, t: Tree)
    requires Sits(nodes, t)
    requires forall id :: id in Ids(t) ==> id < |nodes| && id < |nodes'| && nodes'[id] == nodes[id]
    ensures Sits(nodes', t)
  {
    if t.Fork? {
      SitsFrame(nodes, nodes', t.left);
      SitsFrame(nodes, nodes', t.right);
    }
  }

  lemma {:induction false} SitsInBounds(nodes: seq<Cell>, t: Tree)
    requires Sits(nodes, t)
    ensures forall id :: id in Ids(t) ==> id < |nodes|
  {
    if t.Fork? {
      SitsInBounds(nodes, t.left);
      SitsInBounds(nodes, t.right);
    }
  }

  // The free list holds no slot twice and none in use; free and used slots make up the arena.
  ghost predicate ArenaOk(nodes: seq<Cell>, free: seq<nat>, used: set<nat>, size: nat)
  {
    && (forall i, j :: 0 <= i < j < |free| ==> free[i] != free[j])
    && (forall f :: f in free ==> f < |nodes| && f !in used)
    && (forall id :: id in used ==> id < |nodes|)
    && |nodes| == |free| + size
  }

  // The arena and its free list lay out the sound shape t and nothing else.
  ghost predicate Laid(nodes: seq<Cell>, free: seq<nat>, t: Tree)
  {
    Sits(nodes, t) && ArenaOk(nodes, free, Ids(t), Size(t)) && Sound(t)
  }

  function Stale(c: Cell): Cell
  {
    if c.BranchCell? then c.(dirty := true) else c
  }

  // replace_child: the left pointer if it is the old one, else the right pointer.
  function Repoint(c: Cell, from: nat, to: nat): Cell
  {
    if c.LeafCell? then c else if c.left == from then c.(left := to) else c.(right := to)
  }

  // ---------------------------------------------------------------- replacing a subtree

  // The subtree n forks down key's path.
  function SubAt(t: Tree, key: Key, n: nat): (u: Tree)
    requires Bits(t) && n <= |Path(t, key)|
    ensures Bits(u) && Ids(u) <= Ids(t)
    decreases n
  {
    if n == 0 then t else SubAt(Child(t, KeyBit(key, t.bit)), key, n - 1)
  }

  // Replace that subtree by u; its ancestors become stale.
  function Splice(t: Tree, key: Key, n: nat, u: Tree): Tree
    requires Bits(t) && n <= |Path(t, key)|
    decreases n
  {
    if n == 0 then u
    else
      var b := KeyBit(key, t.bit);
      WithChild(t, b, Splice(Child(t, b), key, n - 1, u))
  }

  // What becomes of the cell in slot id when the first n forks of the path are kept and
  // the last of them is pointed from one subtree to another.
  function Kept(nodes: seq<Cell>, path: seq<nat>, n: nat, from: nat, to: nat, id: nat): Cell
    requires n <= |path| && id < |nodes|
  {
    if id !in path[..n] then nodes[id]
    else if id == path[n - 1] && from != to then Stale(Repoint(nodes[id], from, to))
    else Stale(nodes[id])
  }

  lemma KeptOneLevelDown(nodes: seq<Cell>, t: Tree, key: Key, n: nat, from: nat, to: nat)
    requires Bits(t) && Distinct(t) && 0 < n <= |Path(t, key)| && t.id < |nodes|
    ensures var c := Child(t, KeyBit(key, t.bit));
            var path, sub := Path(t, key), Path(c, key);
            n - 1 <= |sub|
            && (forall id :: id in Ids(c) && id < |nodes| ==> Kept(nodes, path, n, from, to, id) == Kept(nodes, sub, n - 1, from, to, id))
            && Kept(nodes, path, n, from, to, t.id) == if n == 1 && from != to then Stale(Repoint(nodes[t.id], from, to)) else Stale(nodes[t.id])
    ensures forall id :: id in Ids(Child(t, !KeyBit(key, t.bit))) && id < |nodes| ==> Kept(nodes, Path(t, key), n, from, to, id) == nodes[id]
  {
    var c := Child(t, KeyBit(key, t.bit));
    var path, sub := Path(t, key), Path(c, key);
    assert path[..n] == [t.id] + sub[..n - 1];
    if n > 1 {
      assert path[n - 1] == sub[n - 2];
    }
    assert forall id :: id in path[..n] ==> id == t.id || id in Ids(c);
  }

  lemma {:induction false} SpliceSits(nodes: seq<Cell>, nodes': seq<Cell>, t: Tree, key: Key, n: nat, u: Tree)
    requires Bits(t) && Distinct(t) && Sits(nodes, t) && n <= |Path(t, key)| && Sits(nodes', u)
    requires forall id :: id in Ids(t) && id !in Ids(SubAt(t, key, n)) ==>
               id < |nodes| && id < |nodes'| && nodes'[id] == Kept(nodes, Path(t, key), n, SubAt(t, key, n).id, u.id, id)
    ensures Sits(nodes', Splice(t, key, n, u))
    decreases n
  {
    if n > 0 {
      var b := KeyBit(key, t.bit);
      var c, s := Child(t, b), Child(t, !b);
      var hole := SubAt(c, key, n - 1);
      KeptOneLevelDown(nodes, t, key, n, hole.id, u.id);
      SitsInBounds(nodes, t);
      assert Ids(hole) <= Ids(c);
      SpliceSits(nodes, nodes', c, key, n - 1, u);
      SitsFrame(nodes, nodes', s);
      SpliceRoot(nodes, nodes', t, key, n, u);
    }
  }

  // The root cell of a spliced tree: made stale, and repointed when the splice is just below it.
  lemma SpliceRoot(nodes: seq<Cell>, nodes': seq<Cell>, t: Tree, key: Key, n: nat, u: Tree)
    requires Bits(t) && Distinct(t) && Sits(nodes, t) && 0 < n <= |Path(t, key)| && t.id < |nodes'|
    requires nodes'[t.id] == if n == 1 && SubAt(t, key, n).id != u.id then Stale(Repoint(nodes[t.id], SubAt(t, key, n).id, u.id)) else Stale(nodes[t.id])
    ensures var v := Splice(t, key, n, u);
            v.Fork? && v.id == t.id && nodes'[t.id] == BranchCell(v.bit, v.left.id, v.right.id, v.digest, v.dirty)
  {
    var b := KeyBit(key, t.bit);
    var c := Child(t, b);
    assert t.left.id in Ids(t.left) && t.right.id in Ids(t.right);
    if n == 1 {
      assert SubAt(t, key, 1) == c;
      assert Splice(c, key, 0, u) == u;
    } else {
      assert Splice(c, key, n - 1, u).id == c.id;
    }
  }

  // The kept forks lie outside the replaced subtree.
  lemma {:induction false} KeptOutside(t: Tree, key: Key, n: nat)
    requires Bits(t) && Distinct(t) && n <= |Path(t, key)|
    ensures forall id :: id in Path(t, key)[..n] ==> id !in Ids(SubAt(t, key, n)) && id in Ids(t)
    decreases n
  {
    if n > 0 {
      var c := Child(t, KeyBit(key, t.bit));
      KeptOutside(c, key, n - 1);
      assert Path(t, key)[..n] == [t.id] + Path(c, key)[..n - 1];
    }
  }

  lemma {:induction false} SubDistinct(t: Tree, key: Key, n: nat)
    requires Bits(t) && Distinct(t) && n <= |Path(t, key)|
    ensures Distinct(SubAt(t, key, n))
    decreases n
  {
    if n > 0 {
      SubDistinct(Child(t, KeyBit(key, t.bit)), key, n - 1);
    }
  }

  // ---------------------------------------------------------------- the three edits as splices

  lemma {:induction false} OverwriteIsSplice(t: Tree, key: Key, d: Digest)
    requires Bits(t)
    ensures var n := |Path(t, key)|;
            SubAt(t, key, n) == LeafAt(t, key)
            && Overwrite(t, key, d) == Splice(t, key, n, Overwrite(LeafAt(t, key), key, d))
  {
    if t.Fork? {
      OverwriteIsSplice(Child(t, KeyBit(key, t.bit)), key, d);
    }
  }

  // The forks of key's path that decide on a bit before j.
  function KeepLen(t: Tree, key: Key, j: nat): (n: nat)
    requires Bits(t)
    ensures n <= |Path(t, key)|
  {
    if t.Fork? && t.bit < j then 1 + KeepLen(Child(t, KeyBit(key, t.bit)), key, j) else 0
  }

  lemma {:induction false} GraftIsSplice(t: Tree, key: Key, d: Digest, j: nat, leafId: nat, forkId: nat)
    requires Bits(t) && j < KEY_BITS
    ensures var n := KeepLen(t, key, j);
            var s := SubAt(t, key, n);
            (s.Fork? ==> s.bit >= j)
            && Graft(t, key, d, j, leafId, forkId) == Splice(t, key, n, Graft(s, key, d, j, leafId, forkId))
  {
    if t.Fork? && t.bit < j {
      GraftIsSplice(Child(t, KeyBit(key, t.bit)), key, d, j, leafId, forkId);
    }
  }

  lemma {:induction false} WithoutIsSplice(t: Tree, key: Key)
    requires Bits(t) && t.Fork?
    ensures Path(t, key) != []
    ensures var n := |Path(t, key)| - 1;
            var s := SubAt(t, key, n);
            s.Fork? && s.id == Path(t, key)[n] && Child(s, KeyBit(key, s.bit)) == LeafAt(t, key)
            && Dropped(t, key) == (LeafAt(t, key).id, s.id)
            && Without(t, key) == Splice(t, key, n, Child(s, !KeyBit(key, s.bit)))
  {
    var c := Child(t, KeyBit(key, t.bit));
    if c.Fork? {
      WithoutIsSplice(c, key);
    }
  }

  // ---------------------------------------------------------------- reading the path

  lemma {:induction false} PathCells(nodes: seq<Cell>, t: Tree, key: Key, n: nat)
    requires Bits(t) && Sits(nodes, t) && n <= |Path(t, key)|
    ensures var s := SubAt(t, key, n);
            Sits(nodes, s) && (n < |Path(t, key)| <==> s.Fork?)
            && (s.Fork? ==> s.id == Path(t, key)[n]) && (s.Tip? ==> s == LeafAt(t, key))
    decreases n
  {
    if n > 0 {
      PathCells(nodes, Child(t, KeyBit(key, t.bit)), key, n - 1);
    }
  }

  // Branch bits increase along the path, so the kept forks are the leading ones.
  lemma {:induction false} KeepLenIs(t: Tree, key: Key, j: nat, n: nat)
    requires Canon(t) && Bits(t) && n <= |Path(t, key)|
    requires forall m :: n <= m < |Path(t, key)| ==> var s := SubAt(t, key, m); s.Fork? ==> s.bit >= j
    requires n > 0 ==> var s := SubAt(t, key, n - 1); s.Fork? && s.bit < j
    ensures n == KeepLen(t, key, j)
    decreases t
  {
    if t.Fork? {
      var c := Child(t, KeyBit(key, t.bit));
      if n == 0 {
        assert SubAt(t, key, 0) == t;
      } else {
        BitsIncrease(t, key, n - 1);
        forall m | n - 1 <= m < |Path(c, key)|
          ensures SubAt(c, key, m).Fork? ==> SubAt(c, key, m).bit >= j
        {
          assert SubAt(t, key, m + 1) == SubAt(c, key, m);
        }
        if n > 1 {
          assert SubAt(t, key, n - 1) == SubAt(c, key, n - 2);
        }
        KeepLenIs(c, key, j, n - 1);
      }
    }
  }

  lemma {:induction false} BitsIncrease(t: Tree, key: Key, n: nat)
    requires Canon(t) && Bits(t) && n <= |Path(t, key)|
    ensures var s := SubAt(t, key, n); t.Fork? && s.Fork? ==> t.bit <= s.bit
    decreases n
  {
    if n > 0 {
      var b := KeyBit(key, t.bit);
      BitsIncrease(Child(t, b), key, n - 1);
      if Child(t, b).Fork? {
        ChildDecidesLater(t, b);
      }
    }
  }

  lemma KeptElsewhere(nodes: seq<Cell>, path: seq<nat>, n: nat, from: nat, to: nat, id: nat)
    requires n <= |path| && id < |nodes| && id !in path[..n]
    ensures Kept(nodes, path, n, from, to, id) == nodes[id]
  {
  }

  // ---------------------------------------------------------------- the three edits in the arena

  lemma OverwriteLaid(nodes: seq<Cell>, nodes': seq<Cell>, t: Tree, key: Key, d: Digest)
    requires Bits(t) && Distinct(t) && Sits(nodes, t)
    requires var leaf := LeafAt(t, key).id;
             leaf < |nodes'| && nodes'[leaf] == LeafCell(LeafAt(t, key).key, d)
             && forall id :: id in Ids(t) && id != leaf ==>
                  id < |nodes| && id < |nodes'| && nodes'[id] == if id in Path(t, key) then Stale(nodes[id]) else nodes[id]
    ensures Sits(nodes', Overwrite(t, key, d))
  {
    hide Ids, Path, SubAt, Splice, Sits, Distinct, Bits;
    var path := Path(t, key);
    var n := |path|;
    var leaf := LeafAt(t, key);
    OverwriteIsSplice(t, key, d);
    assert leaf.id in Ids(leaf) by {
      LeafIdIn(leaf);
    }
    forall id | id in Ids(t) && id !in Ids(SubAt(t, key, n))
      ensures id < |nodes| && id < |nodes'| && nodes'[id] == Kept(nodes, path, n, leaf.id, leaf.id, id)
    {
      assert path[..n] == path;
      assert id != leaf.id;
    }
    LeafSits(nodes', leaf.id, key, d, leaf.key);
    SpliceSits(nodes, nodes', t, key, n, Overwrite(leaf, key, d));
  }

  lemma LeafIdIn(t: Tree)
    ensures t.id in Ids(t)
  {
  }

  lemma LeafSits(nodes: seq<Cell>, id: nat, key: Key, d: Digest, k: Key)
    requires id < |nodes| && nodes[id] == LeafCell(k, d)
    ensures Sits(nodes, Tip(id, k, d))
  {
  }

  lemma GraftLaid(nodes: seq<Cell>, nodes': seq<Cell>, t: Tree, key: Key, d: Digest, j: nat, leafId: nat, forkId: nat)
    requires Bits(t) && Distinct(t) && Sits(nodes, t) && j < KEY_BITS
    requires leafId < |nodes'| && nodes'[leafId] == LeafCell(key, d)
    requires var n := KeepLen(t, key, j);
             var s := SubAt(t, key, n);
             && forkId < |nodes'| && forkId !in Ids(t)
             && nodes'[forkId] == BranchCell(j, if KeyBit(key, j) then s.id else leafId, if KeyBit(key, j) then leafId else s.id, EMPTY, true)
             && forall id :: id in Ids(t) ==> id < |nodes| && id < |nodes'| && nodes'[id] == Kept(nodes, Path(t, key), n, s.id, forkId, id)
    ensures Sits(nodes', Graft(t, key, d, j, leafId, forkId))
  {
    var n := KeepLen(t, key, j);
    var s := SubAt(t, key, n);
    GraftIsSplice(t, key, d, j, leafId, forkId);
    KeptOutside(t, key, n);
    PathCells(nodes, t, key, n);
    SitsFrame(nodes, nodes', s);
    SpliceSits(nodes, nodes', t, key, n, Graft(s, key, d, j, leafId, forkId));
  }

  // The same, when the leaf and the fork are first added to the arena and the kept path is then hooked to the fork.
  lemma LinkLaid(nodes: seq<Cell>, grown: seq<Cell>, nodes': seq<Cell>, t: Tree, key: Key, d: Digest, j: nat, leafId: nat, forkId: nat)
    requires Bits(t) && Distinct(t) && Sits(nodes, t) && j < KEY_BITS
    requires leafId !in Ids(t) && forkId !in Ids(t) && leafId != forkId
    requires forall id :: id in Ids(t) ==> id < |nodes| && id < |grown| && grown[id] == nodes[id]
    requires var n := KeepLen(t, key, j);
             var s := SubAt(t, key, n);
             && leafId < |grown| && grown[leafId] == LeafCell(key, d)
             && forkId < |grown|
             && grown[forkId] == BranchCell(j, if KeyBit(key, j) then s.id else leafId, if KeyBit(key, j) then leafId else s.id, EMPTY, true)
             && |nodes'| == |grown|
             && forall id :: 0 <= id < |grown| ==> nodes'[id] == Kept(grown, Path(t, key), n, s.id, forkId, id)
    ensures Sits(nodes', Graft(t, key, d, j, leafId, forkId))
    ensures Graft(t, key, d, j, leafId, forkId).id == if KeepLen(t, key, j) == 0 then forkId else t.id
  {
    var n := KeepLen(t, key, j);
    var s := SubAt(t, key, n);
    forall id | id in Ids(t)
      ensures id < |nodes| && id < |nodes'| && nodes'[id] == Kept(nodes, Path(t, key), n, s.id, forkId, id)
    {
    }
    KeptOutside(t, key, n);
    assert leafId !in Path(t, key)[..n] && forkId !in Path(t, key)[..n];
    GraftLaid(nodes, nodes', t, key, d, j, leafId, forkId);
  }

  // The sibling of the leaf a path ends at.
  function Sibling(t: Tree, key: Key): Tree
    requires Bits(t) && Path(t, key) != []
  {
    var s := SubAt(t, key, |Path(t, key)| - 1);
    if s.Fork? then Child(s, !KeyBit(key, s.bit)) else s
  }

  lemma SiblingFacts(nodes: seq<Cell>, t: Tree, key: Key)
    requires Bits(t) && Distinct(t) && Sits(nodes, t) && t.Fork? && Path(t, key) != []
    ensures var n := |Path(t, key)| - 1;
            var s, u, leaf := SubAt(t, key, n), Sibling(t, key), LeafAt(t, key);
            && s.Fork? && Sits(nodes, u) && Without(t, key) == Splice(t, key, n, u)
            && s.id in Ids(s) && leaf.id in Ids(s)
            && (forall id :: id in Ids(u) ==> id in Ids(t) && id != s.id && id != leaf.id && id < |nodes| && id !in Path(t, key)[..n])
  {
    var n := |Path(t, key)| - 1;
    var s, u := SubAt(t, key, n), Sibling(t, key);
    WithoutIsSplice(t, key);
    SubDistinct(t, key, n);
    PathCells(nodes, t, key, n);
    KeptOutside(t, key, n);
    SitsInBounds(nodes, u);
    assert Ids(LeafAt(t, key)) == {LeafAt(t, key).id};
  }

  lemma WithoutLaid(nodes: seq<Cell>, nodes': seq<Cell>, t: Tree, key: Key)
    requires Bits(t) && Distinct(t) && Sits(nodes, t) && t.Fork? && Path(t, key) != []
    requires var n := |Path(t, key)| - 1;
             var s := SubAt(t, key, n);
             forall id :: id in Ids(t) && id != s.id && id != LeafAt(t, key).id ==>
               id < |nodes| && id < |nodes'| && nodes'[id] == Kept(nodes, Path(t, key), n, s.id, Sibling(t, key).id, id)
    ensures Sits(nodes', Without(t, key))
  {
    hide Ids, Path, SubAt, Splice, Without, LeafAt, Kept, Sits, Distinct, Sibling, Bits, Size;
    var n := |Path(t, key)| - 1;
    var s, u := SubAt(t, key, n), Sibling(t, key);
    SiblingFacts(nodes, t, key);
    forall id | id in Ids(u)
      ensures id < |nodes| && id < |nodes'| && nodes'[id] == nodes[id]
    {
      KeptElsewhere(nodes, Path(t, key), n, s.id, u.id, id);
    }
    SitsFrame(nodes, nodes', u);
    forall id | id in Ids(t) && id !in Ids(s)
      ensures id < |nodes| && id < |nodes'| && nodes'[id] == Kept(nodes, Path(t, key), n, s.id, u.id, id)
    {
      assert id != s.id && id != LeafAt(t, key).id;
    }
    SpliceSits(nodes, nodes', t, key, n, u);
  }

  lemma LaidSize(nodes: seq<Cell>, free: seq<nat>, t: Tree)
    requires Laid(nodes, free, t)
    ensures Size(t) == 2 * |Contents(t)| - 1 && |nodes| == |free| + Size(t) && |Ids(t)| == Size(t)
  {
    SizeIsContents(t);
    SizeIsIds(t);
  }

  // What a removal reads off the path: the leaf's parent and, in its cell, the leaf's sibling.
  lemma UnlinkFacts(nodes: seq<Cell>, free: seq<nat>, t: Tree, key: Key)
    requires Laid(nodes, free, t) && key in Contents(t) && Path(t, key) != []
    ensures Sound(t) && Bits(t) && Distinct(t) && Sits(nodes, t) && t.Fork? && ArenaOk(nodes, free, Ids(t), Size(t)) && Size(t) > 1
    ensures var n := |Path(t, key)| - 1;
            var s := SubAt(t, key, n);
            var parent := Path(t, key)[n];
            var leaf := LeafAt(t, key).id;
            && s.Fork? && parent == s.id && parent < |nodes| && nodes[parent].BranchCell?
            && leaf in Ids(t) && parent in Ids(t) && leaf != parent
            && (if nodes[parent].left == leaf then nodes[parent].right else nodes[parent].left) == Sibling(t, key).id
  {
    var n := |Path(t, key)| - 1;
    var s := SubAt(t, key, n);
    WithoutIsSplice(t, key);
    PathCells(nodes, t, key, n);
    LookupLeaf(t, key);
    SubDistinct(t, key, n);
    assert s.left.id in Ids(s.left) && s.right.id in Ids(s.right);
  }

  lemma UnlinkLaid(nodes: seq<Cell>, free: seq<nat>, t: Tree, key: Key)
    requires Sound(t) && t.Fork? && key in Contents(t) && Sits(nodes, Without(t, key)) && Size(t) >= 2 && Path(t, key) != []
    requires ArenaOk(nodes, free, Ids(t) - {LeafAt(t, key).id, Path(t, key)[|Path(t, key)| - 1]}, Size(t) - 2)
    ensures Laid(nodes, free, Without(t, key))
    ensures Contents(Without(t, key)) == Contents(t) - {key} && |Contents(Without(t, key))| == |Contents(t)| - 1
  {
    WithoutSound(t, key);
    WithoutIsSplice(t, key);
  }

  lemma LaidParts(nodes: seq<Cell>, free: seq<nat>, t: Tree)
    requires Laid(nodes, free, t)
    ensures Sits(nodes, t) && Distinct(t) && Cached(t)
  {
  }

  lemma CleanLaid(nodes: seq<Cell>, free: seq<nat>, nodes': seq<Cell>, t: Tree)
    requires Laid(nodes, free, t) && |nodes'| == |nodes| && Sits(nodes', Clean(t))
    ensures var u := Clean(t);
            Laid(nodes', free, u) && !u.Dirty() && u.id == t.id && Contents(u) == Contents(t) && u.digest == Node(Contents(t))
  {
    CleanSound(t);
  }

  // A leaf's new digest, stored in place, with every branch on the path made stale.
  lemma RewriteLaid(nodes: seq<Cell>, free: seq<nat>, nodes': seq<Cell>, t: Tree, key: Key, d: Digest)
    requires Laid(nodes, free, t) && key in Contents(t) && LeafAt(t, key).key == key && |nodes'| == |nodes|
    requires forall id :: 0 <= id < |nodes| ==>
               nodes'[id] == if id == LeafAt(t, key).id then LeafCell(key, d) else if id in Path(t, key) then Stale(nodes[id]) else nodes[id]
    ensures var u := Overwrite(t, key, d);
            Laid(nodes', free, u) && u.id == t.id && Contents(u) == Contents(t)[key := d] && |Contents(u)| == |Contents(t)|
  {
    SitsInBounds(nodes, t);
    LookupLeaf(t, key);
    OverwriteLaid(nodes, nodes', t, key, d);
    OverwriteSound(t, key, d);
  }

  lemma LeafOffPath(nodes: seq<Cell>, free: seq<nat>, t: Tree, key: Key)
    requires Laid(nodes, free, t)
    ensures LeafAt(t, key).id < |nodes| && LeafAt(t, key).id !in Path(t, key)
    ensures Bits(t) && forall id :: id in Path(t, key) ==> id < |nodes|
  {
    var n := |Path(t, key)|;
    SitsInBounds(nodes, t);
    PathCells(nodes, t, key, n);
    KeptOutside(t, key, n);
    assert Path(t, key)[..n] == Path(t, key);
  }
}
