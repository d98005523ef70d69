// The abstract shape of a trie: a tree whose every node remembers the arena slot it sits in.
module Shape {
  import opened Bytes
  import opened Digests
  import opened Commitment

  datatype Tree =
    | Tip(id: nat, key: Key, digest: Digest)
    | Fork(id: nat, bit: nat, left: Tree, right: Tree, digest: Digest, dirty: bool)
  {
    predicate Dirty() { Fork? && dirty }
  }

  function Child(t: Tree, b: bool): (c: Tree)
    requires t.Fork?
    ensures c < t
  {
    if b then t.right else t.left
  }

  // t with the child on side b replaced and its cached digest stale.
  function WithChild(t: Tree, b: bool, c: Tree): Tree
    requires t.Fork?
  {
    if b then t.(right := c, dirty := true) else t.(left := c, dirty := true)
  }

  function Contents(t: Tree): Entries
  {
    match t
    case Tip(_, k, d) => map[k := d]
    case Fork(_, _, l, r, _, _) => Contents(l) + Contents(r)
  }

  function Ids(t: Tree): set<nat>
  {
    match t
    case Tip(id, _, _) => {id}
    case Fork(id, _, l, r, _, _) => {id} + Ids(l) + Ids(r)
  }

  function Size(t: Tree): nat
  {
    if t.Tip? then 1 else 1 + Size(t.left) + Size(t.right)
  }

  // No slot is used twice.
  ghost predicate Distinct(t: Tree)
  {
    t.Fork? ==>
      Distinct(t.left) && Distinct(t.right) && Ids(t.left) !! Ids(t.right)
      && t.id !in Ids(t.left) && t.id !in Ids(t.right)
  }

  // Some key of the tree: the leftmost.
  function Rep(t: Tree): Key
  {
    if t.Tip? then t.key else Rep(t.left)
  }

  ghost predicate AllAgree(t: Tree, k: Key, n: nat)
    requires n <= KEY_BITS
  {
    forall x :: x in Contents(t) ==> Agree(x, k, n)
  }

  ghost predicate AllHave(t: Tree, i: nat, b: bool)
    requires i < KEY_BITS
  {
    forall x :: x in Contents(t) ==> KeyBit(x, i) == b
  }

  // The path-compressed shape: a fork decides on the first bit its keys differ on.
  ghost predicate Canon(t: Tree)
  {
    t.Fork? ==>
      && t.bit < KEY_BITS
      && Canon(t.left) && Canon(t.right)
      && AllHave(t.left, t.bit, false) && AllHave(t.right, t.bit, true)
      && AllAgree(t.left, Rep(t), t.bit) && AllAgree(t.right, Rep(t), t.bit)
  }

  // The digest computed from nothing but the leaves.
  function Fresh(t: Tree): Digest
  {
    match t
    case Tip(_, _, d) => d
    case Fork(_, i, l, r, _, _) => BranchDigest(i, Fresh(l), Fresh(r))
  }

  // Dirtiness is upward closed, and a clean fork caches the digest of its children.
  ghost predicate Cached(t: Tree)
  {
    t.Fork? ==>
      && Cached(t.left) && Cached(t.right)
      && (!t.dirty ==> !t.left.Dirty() && !t.right.Dirty()
                       && t.digest == BranchDigest(t.bit, t.left.digest, t.right.digest))
  }

  lemma {:induction false} CleanIsFresh(t: Tree)
    requires Cached(t) && !t.Dirty()
    ensures t.digest == Fresh(t)
  {
    if t.Fork? {
      CleanIsFresh(t.left);
      CleanIsFresh(t.right);
    }
  }

  lemma RepIn(t: Tree)
    ensures Rep(t) in Contents(t)
  {
  }

  lemma {:induction false} SizeIsIds(t: Tree)
    requires Distinct(t)
    ensures |Ids(t)| == Size(t)
  {
    if t.Fork? {
      SizeIsIds(t.left);
      SizeIsIds(t.right);
      assert |Ids(t.left) + Ids(t.right)| == |Ids(t.left)| + |Ids(t.right)|;
    }
  }

  lemma ChildrenDisjoint(t: Tree)
    requires Canon(t) && t.Fork?
    ensures Contents(t.left).Keys !! Contents(t.right).Keys
    ensures forall x :: x in Contents(t) ==>
              x in Contents(Child(t, KeyBit(x, t.bit))) && Contents(Child(t, KeyBit(x, t.bit)))[x] == Contents(t)[x]
  {
  }

  // A canonical tree of n keys has 2n - 1 nodes.
  lemma {:induction false} SizeIsContents(t: Tree)
    requires Canon(t)
    ensures Size(t) == 2 * |Contents(t)| - 1
  {
    if t.Fork? {
      SizeIsContents(t.left);
      SizeIsContents(t.right);
      ChildrenDisjoint(t);
      assert Contents(t).Keys == Contents(t.left).Keys + Contents(t.right).Keys;
      assert |Contents(t).Keys| == |Contents(t.left).Keys| + |Contents(t.right).Keys|;
    }
  }

  lemma {:induction false} RebaseAgree(t: Tree, a: Key, b: Key, n: nat)
    requires n <= KEY_BITS && AllAgree(t, a, n) && Agree(a, b, n)
    ensures AllAgree(t, b, n)
  {
    forall x | x in Contents(t)
      ensures Agree(x, b, n)
    {
      AgreeTrans(x, a, b, n);
    }
  }

  lemma ForkSplits(t: Tree)
    requires Canon(t) && t.Fork?
    ensures IsSplitBit(Contents(t), t.bit)
    ensures Side(Contents(t), t.bit, false) == Contents(t.left)
    ensures Side(Contents(t), t.bit, true) == Contents(t.right)
  {
    var s := Contents(t);
    RepIn(t.left);
    RepIn(t.right);
    assert !KeyBit(Rep(t.left), t.bit) && KeyBit(Rep(t.right), t.bit);
    forall j: nat | j < t.bit
      ensures !Splits(s, j)
    {
      forall a, b | a in s && b in s
        ensures KeyBit(a, j) == KeyBit(b, j)
      {
        assert Agree(a, Rep(t), t.bit) && Agree(b, Rep(t), t.bit);
      }
    }
    ChildrenDisjoint(t);
  }

  // The digest of a canonical shape is node(S) of the set it holds, whatever its history.
  lemma {:induction false} FreshIsNode(t: Tree)
    requires Canon(t)
    ensures Fresh(t) == Node(Contents(t))
  {
    if t.Tip? {
      NodeOfOne(Contents(t), t.key);
    } else {
      FreshIsNode(t.left);
      FreshIsNode(t.right);
      ForkSplits(t);
      NodeAtSplit(Contents(t), t.bit);
    }
  }

  // ---------------------------------------------------------------- descent

  // The leaf key's path ends at.
  function LeafAt(t: Tree, key: Key): (leaf: Tree)
    requires Bits(t)
    ensures leaf.Tip?
  {
    if t.Tip? then t else LeafAt(Child(t, KeyBit(key, t.bit)), key)
  }

  // Every fork decides on a key bit.
  predicate Bits(t: Tree)
  {
    t.Fork? ==> t.bit < KEY_BITS && Bits(t.left) && Bits(t.right)
  }

  // The slots of the forks on key's path, root first.
  function Path(t: Tree, key: Key): (p: seq<nat>)
    requires Bits(t)
    ensures forall i :: i in p ==> i in Ids(t)
  {
    if t.Tip? then [] else [t.id] + Path(Child(t, KeyBit(key, t.bit)), key)
  }

  lemma {:induction false} LookupLeaf(t: Tree, key: Key)
    requires Canon(t) && Bits(t)
    ensures var leaf := LeafAt(t, key);
            leaf.key in Contents(t) && Contents(t)[leaf.key] == leaf.digest
            && (key in Contents(t) <==> leaf.key == key)
            && leaf.id in Ids(t)
  {
    if t.Fork? {
      LookupLeaf(Child(t, KeyBit(key, t.bit)), key);
      ChildrenDisjoint(t);
    }
  }

  // Branch bits strictly increase downward.
  lemma ChildDecidesLater(t: Tree, b: bool)
    requires Canon(t) && t.Fork? && Child(t, b).Fork?
    ensures t.bit < Child(t, b).bit
  {
    var c := Child(t, b);
    ForkSplits(c);
    var x, y :| x in Contents(c) && y in Contents(c) && !KeyBit(x, c.bit) && KeyBit(y, c.bit);
    assert KeyBit(x, t.bit) == b && KeyBit(y, t.bit) == b;
    assert Agree(x, Rep(t), t.bit) && Agree(y, Rep(t), t.bit);
  }

  // A path holds at most one fork per key bit, so a descent ends within 256 levels.
  lemma {:induction false} PathDepth(t: Tree, key: Key)
    requires Canon(t) && Bits(t)
    ensures |Path(t, key)| <= if t.Fork? then KEY_BITS - t.bit else 0
  {
    if t.Fork? {
      var b := KeyBit(key, t.bit);
      PathDepth(Child(t, b), key);
      if Child(t, b).Fork? {
        ChildDecidesLater(t, b);
      }
    }
  }

  // ---------------------------------------------------------------- replacing a child

  // A replacement child fits when it keeps the side and the common prefix of its fork.
  lemma WithChildCanon(t: Tree, b: bool, c: Tree)
    requires Canon(t) && t.Fork? && Canon(c)
    requires AllHave(c, t.bit, b) && AllAgree(c, Rep(t), t.bit)
    ensures Canon(WithChild(t, b, c))
    ensures Contents(WithChild(t, b, c)) == (Contents(t) - Contents(Child(t, b)).Keys) + Contents(c)
    ensures Agree(Rep(WithChild(t, b, c)), Rep(t), t.bit)
  {
    var u := WithChild(t, b, c);
    ChildrenDisjoint(t);
    RepIn(u);
    assert Agree(Rep(u), Rep(t), t.bit) by {
      RepIn(t);
      RepIn(c);
      if b {
        assert Rep(u) == Rep(t);
      } else {
        assert Rep(u) == Rep(c);
      }
    }
    RebaseAgree(u.left, Rep(t), Rep(u), t.bit);
    RebaseAgree(u.right, Rep(t), Rep(u), t.bit);
  }

  lemma WithChildFrame(t: Tree, b: bool, c: Tree)
    requires t.Fork? && Distinct(t) && Cached(t) && Distinct(c) && Cached(c)
    requires Ids(c) !! Ids(Child(t, !b)) && t.id !in Ids(c)
    ensures var u := WithChild(t, b, c);
            Distinct(u) && Cached(u) && Ids(u) == {t.id} + Ids(Child(t, !b)) + Ids(c)
  {
  }

  lemma PatchSub(m: Entries, sub: Entries, key: Key, d: Digest)
    requires forall k :: k in sub ==> k in m && m[k] == sub[k]
    ensures (m - sub.Keys) + sub[key := d] == m[key := d]
    ensures key in sub ==> (m - sub.Keys) + (sub - {key}) == m - {key}
  {
  }

  lemma SubOfFork(t: Tree, b: bool)
    requires Canon(t) && t.Fork?
    ensures var c := Contents(Child(t, b)); forall k :: k in c ==> k in Contents(t) && Contents(t)[k] == c[k]
  {
    ChildrenDisjoint(t);
  }

  // Writing key into the child on its side writes it into the fork.
  lemma PutChild(t: Tree, c: Tree, key: Key, d: Digest)
    requires Canon(t) && t.Fork? && Canon(c) && Agree(key, Rep(t), t.bit)
    requires Contents(c) == Contents(Child(t, KeyBit(key, t.bit)))[key := d]
    ensures Canon(WithChild(t, KeyBit(key, t.bit), c)) && Contents(WithChild(t, KeyBit(key, t.bit), c)) == Contents(t)[key := d]
  {
    var b := KeyBit(key, t.bit);
    SubOfFork(t, b);
    PatchSub(Contents(t), Contents(Child(t, b)), key, d);
    WithChildCanon(t, b, c);
  }

  // The side key's bit selects holds key, if the fork does, with its common prefix.
  lemma SideOfKey(t: Tree, key: Key)
    requires Canon(t) && t.Fork? && key in Contents(t)
    ensures key in Contents(Child(t, KeyBit(key, t.bit))) && Agree(key, Rep(t), t.bit)
  {
  }

  // ---------------------------------------------------------------- overwrite

  // Replace the digest of a present key; its ancestors become stale.
  function Overwrite(t: Tree, key: Key, d: Digest): Tree
    requires Bits(t)
  {
    if t.Tip? then Tip(t.id, t.key, d)
    else
      var b := KeyBit(key, t.bit);
      WithChild(t, b, Overwrite(Child(t, b), key, d))
  }

  lemma {:induction false} OverwriteCorrect(t: Tree, key: Key, d: Digest)
    requires Canon(t) && Bits(t) && key in Contents(t)
    ensures Canon(Overwrite(t, key, d)) && Contents(Overwrite(t, key, d)) == Contents(t)[key := d]
  {
    if t.Fork? {
      hide AllHave, AllAgree, Agree;
      var c := Child(t, KeyBit(key, t.bit));
      SideOfKey(t, key);
      OverwriteCorrect(c, key, d);
      PutChild(t, Overwrite(c, key, d), key, d);
    }
  }

  lemma {:induction false} OverwriteFrame(t: Tree, key: Key, d: Digest)
    requires Bits(t) && Distinct(t) && Cached(t)
    ensures var u := Overwrite(t, key, d);
            Bits(u) && Distinct(u) && Cached(u) && Ids(u) == Ids(t) && u.id == t.id && Size(u) == Size(t)
  {
    if t.Fork? {
      var b := KeyBit(key, t.bit);
      OverwriteFrame(Child(t, b), key, d);
      WithChildFrame(t, b, Overwrite(Child(t, b), key, d));
    }
  }

  // ---------------------------------------------------------------- insertion

  // Insert a new leaf at the first node of key's path that decides on a bit past j:
  // a new fork on bit j takes that node's place.
  function Graft(t: Tree, key: Key, d: Digest, j: nat, leafId: nat, forkId: nat): Tree
    requires Bits(t) && j < KEY_BITS
  {
    if t.Fork? && t.bit < j then
      var b := KeyBit(key, t.bit);
      WithChild(t, b, Graft(Child(t, b), key, d, j, leafId, forkId))
    else if KeyBit(key, j) then
      Fork(forkId, j, t, Tip(leafId, key, d), EMPTY, true)
    else
      Fork(forkId, j, Tip(leafId, key, d), t, EMPTY, true)
  }

  // j is the first bit on which key and the leaf its path ends at differ.
  ghost predicate PartsAt(t: Tree, key: Key, j: nat)
    requires Bits(t)
  {
    var k := LeafAt(t, key).key;
    j < KEY_BITS && KeyBit(key, j) != KeyBit(k, j) && Agree(key, k, j)
  }

  lemma {:induction false} GraftCorrect(t: Tree, key: Key, d: Digest, j: nat, leafId: nat, forkId: nat)
    requires Canon(t) && Bits(t) && PartsAt(t, key, j)
    ensures Canon(Graft(t, key, d, j, leafId, forkId))
    ensures Contents(Graft(t, key, d, j, leafId, forkId)) == Contents(t)[key := d]
    ensures key !in Contents(t)
  {
    hide AllHave, AllAgree, Agree;
    LookupLeaf(t, key);
    if t.Fork? && t.bit < j {
      var c := Child(t, KeyBit(key, t.bit));
      GraftCorrect(c, key, d, j, leafId, forkId);
      PartsAgree(t, key, j);
      PutChild(t, Graft(c, key, d, j, leafId, forkId), key, d);
    } else {
      GraftHereCorrect(t, key, d, j, leafId, forkId);
    }
  }

  lemma GraftHereCorrect(t: Tree, key: Key, d: Digest, j: nat, leafId: nat, forkId: nat)
    requires Canon(t) && Bits(t) && PartsAt(t, key, j) && (t.Fork? ==> t.bit >= j)
    ensures Canon(Graft(t, key, d, j, leafId, forkId)) && key !in Contents(t)
    ensures Contents(Graft(t, key, d, j, leafId, forkId)) == Contents(t)[key := d]
  {
    GraftHere(t, key, j);
    var u := Graft(t, key, d, j, leafId, forkId);
    RepIn(t);
    RepIn(u);
    RebaseAgree(t, key, Rep(u), j);
  }

  // Above the splice point key shares the common prefix.
  lemma PartsAgree(t: Tree, key: Key, j: nat)
    requires Canon(t) && Bits(t) && PartsAt(t, key, j) && t.Fork? && t.bit < j
    ensures Agree(key, Rep(t), t.bit)
  {
    var leaf := LeafAt(t, key);
    LookupLeaf(t, key);
    SideOfKey(t, leaf.key);
    AgreeTrans(key, leaf.key, Rep(t), t.bit);
  }

  // At the splice point every key agrees with the reached leaf through bit j.
  lemma GraftHere(t: Tree, key: Key, j: nat)
    requires Canon(t) && Bits(t) && PartsAt(t, key, j)
    requires t.Fork? ==> t.bit >= j
    ensures AllAgree(t, key, j) && AllHave(t, j, !KeyBit(key, j))
  {
    var k := LeafAt(t, key).key;
    LookupLeaf(t, key);
    if t.Fork? {
      LookupLeaf(Child(t, KeyBit(key, t.bit)), key);
      assert t.bit != j;
      forall x | x in Contents(t)
        ensures Agree(x, key, j) && KeyBit(x, j) == KeyBit(k, j)
      {
        assert Agree(x, Rep(t), t.bit) && Agree(k, Rep(t), t.bit);
      }
    }
  }

  lemma {:induction false} GraftFrame(t: Tree, key: Key, d: Digest, j: nat, leafId: nat, forkId: nat)
    requires Bits(t) && j < KEY_BITS && Distinct(t) && Cached(t)
    requires leafId !in Ids(t) && forkId !in Ids(t) && leafId != forkId
    ensures var u := Graft(t, key, d, j, leafId, forkId);
            Bits(u) && Distinct(u) && Cached(u) && Ids(u) == Ids(t) + {leafId, forkId} && Size(u) == Size(t) + 2
  {
    if t.Fork? && t.bit < j {
      var b := KeyBit(key, t.bit);
      GraftFrame(Child(t, b), key, d, j, leafId, forkId);
      WithChildFrame(t, b, Graft(Child(t, b), key, d, j, leafId, forkId));
    }
  }

  // ---------------------------------------------------------------- removal

  // Remove the leaf key's path ends at: its sibling takes the place of their fork.
  function Without(t: Tree, key: Key): Tree
    requires Bits(t) && t.Fork?
  {
    var b := KeyBit(key, t.bit);
    var c := Child(t, b);
    if c.Tip? then Child(t, !b) else WithChild(t, b, Without(c, key))
  }

  lemma {:induction false} WithoutCorrect(t: Tree, key: Key)
    requires Canon(t) && Bits(t) && t.Fork? && key in Contents(t)
    ensures Canon(Without(t, key)) && Contents(Without(t, key)) == Contents(t) - {key}
  {
    var b := KeyBit(key, t.bit);
    var c := Child(t, b);
    ChildrenDisjoint(t);
    SubOfFork(t, b);
    PatchSub(Contents(t), Contents(c), key, EMPTY);
    if c.Fork? {
      WithoutCorrect(c, key);
      WithChildCanon(t, b, Without(c, key));
    } else {
      assert Contents(t) - Contents(c).Keys == Contents(Child(t, !b));
    }
  }

  // The two slots a removal gives up: the leaf's and its parent's.
  function Dropped(t: Tree, key: Key): (nat, nat)
    requires Bits(t) && t.Fork?
  {
    var c := Child(t, KeyBit(key, t.bit));
    if c.Tip? then (c.id, t.id) else Dropped(c, key)
  }

  lemma {:induction false} WithoutFrame(t: Tree, key: Key)
    requires Bits(t) && t.Fork? && Distinct(t) && Cached(t)
    ensures var u := Without(t, key);
            var (leafId, forkId) := Dropped(t, key);
            Bits(u) && Distinct(u) && Cached(u) && leafId != forkId && {leafId, forkId} <= Ids(t)
            && Ids(u) == Ids(t) - {leafId, forkId} && Size(t) == Size(u) + 2
  {
    var b := KeyBit(key, t.bit);
    var c := Child(t, b);
    if c.Fork? {
      WithoutFrame(c, key);
      WithChildFrame(t, b, Without(c, key));
    }
  }

  // ---------------------------------------------------------------- hashing

  // The tree after every stale fork has been hashed.
  function Clean(t: Tree): Tree
  {
    if !t.Dirty() then t
    else
      var l, r := Clean(t.left), Clean(t.right);
      Fork(t.id, t.bit, l, r, BranchDigest(t.bit, l.digest, r.digest), false)
  }

  lemma {:induction false} CleanCorrect(t: Tree)
    requires Cached(t)
    ensures var u := Clean(t);
            Cached(u) && !u.Dirty() && u.digest == Fresh(t) && Contents(u) == Contents(t)
            && (Canon(t) ==> Canon(u)) && Rep(u) == Rep(t)
            && Ids(u) == Ids(t) && (Distinct(t) ==> Distinct(u)) && u.id == t.id && Size(u) == Size(t)
            && (Bits(t) ==> Bits(u))
  {
    if !t.Dirty() {
      CleanIsFresh(t);
    } else {
      CleanCorrect(t.left);
      CleanCorrect(t.right);
    }
  }

  // ---------------------------------------------------------------- edits keep the invariant

  // A canonical, duplicate-free shape with exact caches.
  ghost predicate Sound(t: Tree)
  {
    Canon(t) && Bits(t) && Distinct(t) && Cached(t)
  }

  lemma OverwriteSound(t: Tree, key: Key, d: Digest)
    requires Sound(t) && key in Contents(t)
    ensures var u := Overwrite(t, key, d);
            Sound(u) && Contents(u) == Contents(t)[key := d] && |Contents(u)| == |Contents(t)|
            && Ids(u) == Ids(t) && u.id == t.id && Size(u) == Size(t)
  {
    hide Canon, Distinct, Cached, Contents, Ids, Bits;
    OverwriteCorrect(t, key, d);
    OverwriteFrame(t, key, d);
    assert Contents(t)[key := d].Keys == Contents(t).Keys;
  }

  lemma GraftSound(t: Tree, key: Key, d: Digest, j: nat, leafId: nat, forkId: nat)
    requires Sound(t) && PartsAt(t, key, j)
    requires leafId !in Ids(t) && forkId !in Ids(t) && leafId != forkId
    ensures var u := Graft(t, key, d, j, leafId, forkId);
            Sound(u) && key !in Contents(t) && Contents(u) == Contents(t)[key := d] && |Contents(u)| == |Contents(t)| + 1
            && Ids(u) == Ids(t) + {leafId, forkId} && Size(u) == Size(t) + 2
  {
    hide Canon, Distinct, Cached, Contents, Ids, Bits;
    GraftCorrect(t, key, d, j, leafId, forkId);
    GraftFrame(t, key, d, j, leafId, forkId);
    assert Contents(t)[key := d].Keys == Contents(t).Keys + {key};
  }

  lemma WithoutSound(t: Tree, key: Key)
    requires Sound(t) && t.Fork? && key in Contents(t)
    ensures var u := Without(t, key);
            var (leafId, forkId) := Dropped(t, key);
            Sound(u) && Contents(u) == Contents(t) - {key} && |Contents(u)| == |Contents(t)| - 1
            && Ids(u) == Ids(t) - {leafId, forkId} && Size(u) == Size(t) - 2
  {
    hide Canon, Distinct, Cached, Contents, Ids, Bits;
    WithoutCorrect(t, key);
    WithoutFrame(t, key);
    assert (Contents(t) - {key}).Keys == Contents(t).Keys - {key};
  }

  lemma CleanSound(t: Tree)
    requires Sound(t)
    ensures var u := Clean(t);
            Sound(u) && !u.Dirty() && u.digest == Node(Contents(t)) && Contents(u) == Contents(t)
            && Ids(u) == Ids(t) && u.id == t.id && Size(u) == Size(t)
  {
    CleanCorrect(t);
    FreshIsNode(t);
  }
}
