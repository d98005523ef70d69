// A committed dimension: a map for reads, and a trie that catches up with the touched
// records on the next commitment read.
module KeyedMaps {
  import opened Wrappers
  import opened Bytes
  import opened Integers
  import opened Digests
  import opened Commitment
  import opened TrieProofs
  import opened Tries

  ghost predicate Injective<K(!new)>(f: K -> Key)
  {
    forall a, b :: f(a) == f(b) ==> a == b
  }

  // Heights: little-endian in the first eight bytes.
  function HeightKey(h: u64): Key
  {
    EncodeU64(h) + seq(24, _ => 0)
  }

  lemma HeightKeyInjective()
    ensures Injective(HeightKey)
  {
    forall g, h | HeightKey(g) == HeightKey(h)
      ensures g == h
    {
      assert HeightKey(g)[..8] == EncodeU64(g) && HeightKey(h)[..8] == EncodeU64(h);
      U64RoundTrip(g);
      U64RoundTrip(h);
    }
  }

  // The leaves of a record map.
  ghost function LeavesOf<K(!new), V>(keyBytes: K -> Key, leafVals: V -> seq<Felt>, entries: map<K, V>): Entries
    requires Injective(keyBytes)
  {
    map k | k in entries :: keyBytes(k) := LeafDigest(keyBytes(k), leafVals(entries[k]))
  }

  // One commitment, one set of records: the same keys, with the same leaf fields.
  lemma RecordsBind<K(!new), V>(keyBytes: K -> Key, leafVals: V -> seq<Felt>, a: map<K, V>, b: map<K, V>)
    requires Injective(keyBytes) && Node(LeavesOf(keyBytes, leafVals, a)) == Node(LeavesOf(keyBytes, leafVals, b))
    ensures a.Keys == b.Keys && forall k :: k in a ==> leafVals(a[k]) == leafVals(b[k])
  {
    hide LeafDigest, Node;
    var s, t := LeavesOf(keyBytes, leafVals, a), LeavesOf(keyBytes, leafVals, b);
    LeavesAreRecords(keyBytes, leafVals, a);
    LeavesAreRecords(keyBytes, leafVals, b);
    CommitmentBinds(s, t);
    forall k
      ensures k in a <==> k in b
      ensures k in a ==> leafVals(a[k]) == leafVals(b[k])
    {
      assert k in a <==> keyBytes(k) in s;
      assert k in b <==> keyBytes(k) in t;
      if k in a {
        LeafDigestInjective(keyBytes(k), leafVals(a[k]), keyBytes(k), leafVals(b[k]));
      }
    }
  }

  lemma LeavesAreRecords<K(!new), V>(keyBytes: K -> Key, leafVals: V -> seq<Felt>, entries: map<K, V>)
    requires Injective(keyBytes)
    ensures Records(LeavesOf(keyBytes, leafVals, entries))
  {
    hide LeafDigest;
    var s := LeavesOf(keyBytes, leafVals, entries);
    forall x | x in s
      ensures IsRecord(x, s[x])
    {
      var k :| k in entries && keyBytes(k) == x;
      assert s[x] == LeafDigest(x, leafVals(entries[k]));
    }
  }

  class Keyed<K(==,!new), V> {
    // The 32-byte trie path of a key, and the leaf value fields of a record.
    const keyBytes: K -> Key
    const leafVals: V -> seq<Felt>
    var entries: map<K, V>
    var trie: Trie
    var dirty: set<K>

    // What the trie should hold for a present key.
    ghost function Leaf(key: K): Digest
      requires key in entries
      reads this
    {
      LeafDigest(keyBytes(key), leafVals(entries[key]))
    }

    // Trie entries that hold key's current record, or its absence.
    ghost predicate Seen(key: K, es: Entries)
      reads this
    {
      if key in entries
      then keyBytes(key) in es && es[keyBytes(key)] == Leaf(key)
      else keyBytes(key) !in es
    }

    ghost predicate OwnKeys(es: Entries)
    {
      forall x :: x in es ==> exists k :: keyBytes(k) == x
    }

    ghost predicate Valid()
      reads this, trie
    {
      && Injective(keyBytes) && trie.Valid() && OwnKeys(trie.Entries())
      && (forall k :: k !in dirty ==> Seen(k, trie.Entries()))
    }

    // The records as the trie commits to them.
    ghost function Leaves(): Entries
      requires Injective(keyBytes)
      reads this
    {
      LeavesOf(keyBytes, leafVals, entries)
    }

    // Trie slots are u32: records and pending removals together fit half of them.
    ghost predicate Room()
      reads this, trie
    {
      trie.len + |dirty| < MAX_LEAVES
    }

    constructor (keyBytes: K -> Key, leafVals: V -> seq<Felt>)
      requires Injective(keyBytes)
      ensures Valid() && fresh(trie) && entries == map[] && dirty == {}
      ensures this.keyBytes == keyBytes && this.leafVals == leafVals
    {
      this.keyBytes, this.leafVals := keyBytes, leafVals;
      entries, dirty := map[], {};
      trie := new Trie();
    }

    // Write each dirty key's leaf, or its absence, into the trie.
    method Flush()
      requires Valid() && Room()
      modifies this`dirty, trie
      ensures Valid() && dirty == {} && trie == old(trie)
      ensures trie.Entries() == Leaves()
    {
      hide Trie.Valid, Trie.Entries;
      var todo := dirty;
      dirty := {};
      while todo != {}
        invariant trie.Valid() && OwnKeys(trie.Entries())
        invariant forall k :: k !in todo ==> Seen(k, trie.Entries())
        invariant trie.len + |todo| < MAX_LEAVES && dirty == {} && trie == old(trie)
        decreases todo
      {
        var key :| key in todo;
        ghost var es := trie.Entries();
        See(key);
        todo := todo - {key};
        SeenAfter(key, todo, es, trie.Entries());
      }
      AllSeen(trie.Entries());
    }

    // One record, or its absence, written to the trie.
    method See(key: K)
      requires trie.Valid() && trie.len < MAX_LEAVES
      modifies trie
      ensures trie.Valid() && trie.len <= old(trie.len) + 1
      ensures trie.Entries() == if key in entries then old(trie.Entries())[keyBytes(key) := Leaf(key)] else old(trie.Entries()) - {keyBytes(key)}
    {
      hide Trie.Valid, Trie.Entries;
      if key in entries {
        var digest := ComputeLeafDigest(keyBytes(key), leafVals(entries[key]));
        var _ := trie.Set(keyBytes(key), digest);
      } else {
        var _ := trie.Remove(keyBytes(key));
      }
    }

    lemma SeenAfter(key: K, todo: set<K>, es: Entries, es': Entries)
      requires Injective(keyBytes) && OwnKeys(es) && forall k :: k !in todo && k != key ==> Seen(k, es)
      requires es' == if key in entries then es[keyBytes(key) := Leaf(key)] else es - {keyBytes(key)}
      ensures OwnKeys(es') && forall k :: k !in todo ==> Seen(k, es')
    {
      forall k | k !in todo
        ensures Seen(k, es')
      {
        if k != key {
          assert Seen(k, es) && keyBytes(k) != keyBytes(key);
        }
      }
    }

    lemma AllSeen(es: Entries)
      requires Injective(keyBytes) && OwnKeys(es) && forall k :: Seen(k, es)
      ensures es == Leaves()
    {
      forall x | x in es
        ensures x in Leaves() && Leaves()[x] == es[x]
      {
        var k :| keyBytes(k) == x;
        assert Seen(k, es);
      }
      assert forall k :: k in entries ==> Seen(k, es);
    }

    // How many keys the trie has not seen yet.
    method Pending() returns (n: nat)
      requires Valid()
      ensures n == |dirty| && (n == 0 ==> trie.Entries() == Leaves())
    {
      hide Trie.Valid, Trie.Entries, Seen, OwnKeys;
      n := |dirty|;
      if dirty == {} {
        AllSeen(trie.Entries());
      }
    }

    method Touched(key: K)
      modifies this`dirty
      ensures dirty == old(dirty) + {key}
    {
      dirty := dirty + {key};
    }

    method Insert(key: K, value: V) returns (prior: Option<V>)
      requires Valid()
      modifies this`entries, this`dirty
      ensures Valid()
      ensures entries == old(entries)[key := value] && dirty == old(dirty) + {key}
      ensures prior == if key in old(entries) then Some(old(entries)[key]) else None
    {
      prior := if key in entries then Some(entries[key]) else None;
      entries := entries[key := value];
      Touched(key);
      assert forall k :: k !in dirty ==> old(Seen(k, trie.Entries()));
    }

    method Remove(key: K) returns (prior: Option<V>)
      requires Valid()
      modifies this`entries, this`dirty
      ensures Valid()
      ensures entries == old(entries) - {key}
      ensures dirty == if key in old(entries) then old(dirty) + {key} else old(dirty)
      ensures prior == if key in old(entries) then Some(old(entries)[key]) else None
    {
      if key !in entries {
        assert entries - {key} == entries;
        return None;
      }
      prior := Some(entries[key]);
      entries := entries - {key};
      Touched(key);
      assert forall k :: k !in dirty ==> old(Seen(k, trie.Entries()));
    }

    method Clear()
      requires Valid()
      modifies this
      ensures Valid() && fresh(trie) && entries == map[] && dirty == {}
    {
      entries, dirty := map[], {};
      trie := new Trie();
    }

    // get_mut and its guard's drop: change a present record in place.
    method Update(key: K, change: V -> V) returns (present: bool)
      requires Valid()
      modifies this`entries, this`dirty
      ensures Valid() && present == (key in old(entries))
      ensures entries == if present then old(entries)[key := change(old(entries)[key])] else old(entries)
    {
      present := key in entries;
      if present {
        var _ := Insert(key, change(entries[key]));
      }
    }

    // entry().or_insert() and its guard's drop: insert if absent, then change in place.
    method Entry(key: K, absent: V, change: V -> V)
      requires Valid()
      modifies this`entries, this`dirty
      ensures Valid()
      ensures entries == old(entries)[key := change(if key in old(entries) then old(entries)[key] else absent)]
    {
      var _ := Insert(key, change(if key in entries then entries[key] else absent));
    }

    // The commitment is node(S) of the current records, wherever earlier reads flushed.
    method Commit() returns (d: Digest)
      requires Valid() && Room()
      modifies this`dirty, trie
      ensures Valid() && dirty == {} && d == Node(Leaves())
    {
      Flush();
      d := trie.Root();
    }

    // A proof of key's actual status against the commitment.
    method Prove(key: K) returns (p: TrieProof)
      requires Valid() && Room()
      modifies this`dirty, trie
      ensures Valid() && BitsInKey(p.steps)
      ensures Accepts(p, Node(Leaves()), keyBytes(key), if key in entries then Some(Leaf(key)) else None)
    {
      Flush();
      p := trie.Prove(keyBytes(key));
      assert keyBytes(key) in Leaves() <==> key in entries;
    }
  }
}
