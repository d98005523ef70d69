// What the chain validators accept, row by row in key order, and that it is coherence.
module Links {
  import opened Wrappers
  import opened Bytes
  import opened Integers
  import opened Sorting
  import opened Stores
  import opened Scans
  import opened Databases
  import opened Applications
  import opened Histories

  // The keys of a table, in the order they are scanned.
  ghost function Keys(s: Store, t: Table): seq<seq<byte>>
  {
    KeysAfter(RowsIn(s, t), None, [])
  }

  lemma KeysFacts(s: Store, t: Table)
    ensures Ascends(ByteOrder(), Keys(s, t)) && forall k :: k in Keys(s, t) <==> At(s, t, k).Some?
  {
    hide KeysAfter, Lt;
    KeysAfterFacts(RowsIn(s, t), None, []);
    forall k
      ensures k in Keys(s, t) <==> At(s, t, k).Some?
    {
      RowsInAt(s, t, k);
      assert Wanted(k, None, []);
    }
  }

  // ---------------------------------------------------------------- the checks of one row

  // The history holds this entry, its content is there, and the head has reached it.
  predicate LinkOk(s: Store, ns: Key, h: Head)
  {
    && HistoryOf(s, ns, h.index) == Some(h.commit) && At(s, Content, h.commit).Some?
    && HeadOf(s, ns).Some? && h.index <= HeadOf(s, ns).value.index
  }

  predicate HeadOk(s: Store, k: seq<byte>)
  {
    |k| == 32 && HeadOf(s, k).Some? && LinkOk(s, k, HeadOf(s, k).value)
  }

  function RequestAt(s: Store, k: seq<byte>): Option<(Key, Head)>
  {
    match At(s, Requests, k) case None => None case Some(bs) => DecodeReceipt(bs)
  }

  predicate RequestOk(s: Store, k: seq<byte>)
  {
    |k| == 64 && RequestAt(s, k).Some? && LinkOk(s, k[..32], RequestAt(s, k).value.1)
  }

  function IndexOf(k: seq<byte>): u64
    requires |k| == 40
  {
    DecodeBE(k[32..])
  }

  ghost predicate Receipted(s: Store, ns: Key, i: u64)
  {
    exists r: Key :: IsReceipt(s, ns, r, i)
  }

  ghost predicate HistoryOk(s: Store, k: seq<byte>)
  {
    && |k| == 40 && At(s, History, k).Some? && |At(s, History, k).value| == 32
    && LinkOk(s, k[..32], Head(IndexOf(k), At(s, History, k).value)) && Receipted(s, k[..32], IndexOf(k))
  }

  // The index the row at position j must have: one more than the row before it in the same
  // namespace, else zero.
  predicate InPlace(keys: seq<seq<byte>>, j: nat)
    requires j < |keys|
  {
    && |keys[j]| == 40 && (j > 0 ==> |keys[j - 1]| == 40)
    && IndexOf(keys[j]) == if j > 0 && keys[j - 1][..32] == keys[j][..32] then IndexOf(keys[j - 1]) + 1 else 0
  }

  ghost predicate InSequence(keys: seq<seq<byte>>)
  {
    forall j :: 0 <= j < |keys| ==> InPlace(keys, j)
  }

  // No two receipts name one history position.
  ghost predicate OneReceiptEach(s: Store, keys: seq<seq<byte>>)
  {
    forall i, j :: 0 <= i < j < |keys| ==> !SamePosition(s, keys[i], keys[j])
  }

  predicate SamePosition(s: Store, k: seq<byte>, l: seq<byte>)
  {
    |k| == 64 && |l| == 64 && k[..32] == l[..32] && RequestAt(s, k).Some? && RequestAt(s, l).Some?
    && RequestAt(s, k).value.1.index == RequestAt(s, l).value.1.index
  }

  ghost predicate Accepted(s: Store)
  {
    && (forall k :: At(s, Heads, k).Some? ==> HeadOk(s, k))
    && (forall k :: At(s, Requests, k).Some? ==> RequestOk(s, k)) && OneReceiptEach(s, Keys(s, Requests))
    && (forall k :: At(s, History, k).Some? ==> HistoryOk(s, k)) && InSequence(Keys(s, History))
  }

  // ---------------------------------------------------------------- history keys in order

  lemma HistoryKeyParts(k: seq<byte>)
    requires |k| == 40
    ensures k == HistoryKey(k[..32], IndexOf(k))
  {
    BECanonical(k[32..]);
    assert k == k[..32] + k[32..];
  }

  lemma HistoryKeyIndex(ns: Key, i: u64)
    ensures HistoryKey(ns, i)[..32] == ns && IndexOf(HistoryKey(ns, i)) == i
  {
    assert HistoryKey(ns, i)[32..] == BigEndian(i);
    BERoundTrip(i);
  }

  lemma HistoryKeyOrder(a: Key, i: u64, b: Key, j: u64)
    ensures Lt(HistoryKey(a, i), HistoryKey(b, j)) <==> Lt(a, b) || (a == b && i < j)
  {
    hide Lt, BigEndian;
    LtConcat(a, BigEndian(i), b, BigEndian(j));
    BigEndianOrder(i, j);
  }

  // The predecessor of an entry, when it is there, is the key scanned just before it.
  lemma PredecessorBefore(keys: seq<seq<byte>>, j: nat, ns: Key, i: u64)
    requires Ascends(ByteOrder(), keys) && (forall k :: k in keys ==> |k| == 40)
    requires j < |keys| && keys[j] == HistoryKey(ns, i) && i > 0 && HistoryKey(ns, i - 1) in keys
    ensures j > 0 && keys[j - 1] == HistoryKey(ns, i - 1)
  {
    hide Lt, HistoryKey;
    var p :| 0 <= p < |keys| && keys[p] == HistoryKey(ns, i - 1);
    HistoryKeyOrder(ns, i - 1, ns, i);
    LtTotal(keys[p], keys[j]);
    if p < j - 1 {
      var k := keys[j - 1];
      assert k in keys && ByteOrder()(keys[p], k) && ByteOrder()(k, keys[j]);
      HistoryKeyParts(k);
      HistoryKeyOrder(ns, i - 1, k[..32], IndexOf(k));
      HistoryKeyOrder(k[..32], IndexOf(k), ns, i);
      LtTotal(ns, k[..32]);
    }
  }

  // The first entry of a namespace follows no entry of the same namespace.
  lemma FirstAlone(keys: seq<seq<byte>>, j: nat, ns: Key)
    requires Ascends(ByteOrder(), keys) && (forall k :: k in keys ==> |k| == 40)
    requires 0 < j < |keys| && keys[j] == HistoryKey(ns, 0)
    ensures keys[j - 1][..32] != ns
  {
    hide Lt, HistoryKey;
    var k := keys[j - 1];
    assert k in keys && ByteOrder()(k, keys[j]);
    HistoryKeyParts(k);
    HistoryKeyOrder(k[..32], IndexOf(k), ns, 0);
    LtTotal(ns, ns);
  }

  // Every entry but the first has its predecessor.
  ghost predicate Hereditary(s: Store)
  {
    forall ns: Key, i: u64 :: HistoryOf(s, ns, i).Some? && i > 0 ==> HistoryOf(s, ns, i - 1).Some?
  }

  lemma SequenceIsHereditary(s: Store)
    requires forall k :: At(s, History, k).Some? ==> |k| == 40
    ensures InSequence(Keys(s, History)) <==> Hereditary(s)
  {
    hide Lt, HistoryKey, Keys;
    var keys := Keys(s, History);
    KeysFacts(s, History);
    if InSequence(keys) {
      forall ns: Key, i: u64 | HistoryOf(s, ns, i).Some? && i > 0
        ensures HistoryOf(s, ns, i - 1).Some?
      {
        EntryInSequence(s, keys, ns, i);
      }
    }
    if Hereditary(s) {
      forall j | 0 <= j < |keys|
        ensures InPlace(keys, j)
      {
        assert keys[j] in keys;
        HereditaryAt(s, keys, j);
      }
    }
  }

  lemma EntryInSequence(s: Store, keys: seq<seq<byte>>, ns: Key, i: u64)
    requires (forall k :: k in keys <==> At(s, History, k).Some?) && InSequence(keys)
    requires HistoryOf(s, ns, i).Some? && i > 0
    ensures HistoryOf(s, ns, i - 1).Some?
  {
    hide Lt, HistoryKey, DecodeBE;
    HistoryKeyIndex(ns, i);
    assert HistoryKey(ns, i) in keys;
    var j :| 0 <= j < |keys| && keys[j] == HistoryKey(ns, i);
    assert InPlace(keys, j) && IndexOf(keys[j]) == i;
    assert keys[j - 1] in keys;
    HistoryKeyParts(keys[j - 1]);
  }

  lemma HereditaryAt(s: Store, keys: seq<seq<byte>>, j: nat)
    requires Ascends(ByteOrder(), keys) && (forall k :: k in keys <==> At(s, History, k).Some?)
    requires (forall k :: k in keys ==> |k| == 40) && j < |keys| && Hereditary(s)
    ensures InPlace(keys, j)
  {
    hide Lt, HistoryKey, DecodeBE;
    var k := keys[j];
    assert k in keys && (j > 0 ==> keys[j - 1] in keys);
    HistoryKeyParts(k);
    var ns, i := k[..32], IndexOf(k);
    if i > 0 {
      assert HistoryOf(s, ns, i).Some? && HistoryOf(s, ns, i - 1).Some?;
      PredecessorBefore(keys, j, ns, i);
      HistoryKeyIndex(ns, i - 1);
    } else if j > 0 {
      FirstAlone(keys, j, ns);
    }
  }

  // ---------------------------------------------------------------- acceptance is coherence

  lemma {:induction false} Descend(s: Store, ns: Key, i: u64, j: u64)
    requires Hereditary(s) && HistoryOf(s, ns, i).Some? && j <= i
    ensures HistoryOf(s, ns, j).Some?
    decreases i
  {
    if j < i {
      Descend(s, ns, i - 1, j);
    }
  }

  lemma AcceptedShapes(s: Store)
    requires Accepted(s)
    ensures HeadRows(s) && HistoryRows(s) && RequestRows(s)
  {
    hide DecodeHead, DecodeReceipt, HistoryOf, Keys, InSequence, OneReceiptEach, Receipted;
  }

  lemma AcceptedHistory(s: Store)
    requires Accepted(s)
    ensures Contiguous(s) && EndsAtHead(s)
  {
    hide DecodeReceipt, HistoryKey, Keys, InSequence, OneReceiptEach, Receipted, Hereditary, DecodeBE, DecodeHead;
    SequenceIsHereditary(s);
    forall ns: Key | HeadOf(s, ns).Some?
      ensures HistoryOf(s, ns, HeadOf(s, ns).value.index) == Some(HeadOf(s, ns).value.commit)
    {
      assert HeadOk(s, ns);
    }
    forall ns: Key, i: u64
      ensures HistoryOf(s, ns, i).Some? <==> HeadOf(s, ns).Some? && i <= HeadOf(s, ns).value.index
    {
      HistoryKeyIndex(ns, i);
      if HistoryOf(s, ns, i).Some? {
        assert HistoryOk(s, HistoryKey(ns, i));
      }
      if HeadOf(s, ns).Some? {
        assert HeadOk(s, ns);
        if i <= HeadOf(s, ns).value.index {
          Descend(s, ns, HeadOf(s, ns).value.index, i);
        }
      }
    }
  }

  lemma AcceptedReceipts(s: Store)
    requires Accepted(s)
    ensures ReceiptsMatch(s)
  {
    hide DecodeReceipt, HistoryKey, Keys, InSequence, DecodeBE, DecodeHead, HeadOk;
    KeysFacts(s, Requests);
    var keys := Keys(s, Requests);
    forall ns: Key, r: Key | ReceiptOf(s, ns, r).Some?
      ensures HistoryOf(s, ns, ReceiptOf(s, ns, r).value.1.index) == Some(ReceiptOf(s, ns, r).value.1.commit)
    {
      RequestKeyParts(ns, r);
      assert RequestOk(s, RequestKey(ns, r));
    }
    forall ns: Key, p: Key, q: Key, i: u64 | IsReceipt(s, ns, p, i) && IsReceipt(s, ns, q, i)
      ensures p == q
    {
      RequestKeyParts(ns, p);
      RequestKeyParts(ns, q);
      var k, l := RequestKey(ns, p), RequestKey(ns, q);
      assert k in keys && l in keys;
      var x :| 0 <= x < |keys| && keys[x] == k;
      var y :| 0 <= y < |keys| && keys[y] == l;
      assert SamePosition(s, k, l) && SamePosition(s, l, k);
    }
    forall ns: Key, i: u64 | HistoryOf(s, ns, i).Some?
      ensures exists r: Key :: IsReceipt(s, ns, r, i)
    {
      HistoryKeyIndex(ns, i);
      assert HistoryOk(s, HistoryKey(ns, i));
    }
  }

  lemma RequestKeyParts(ns: Key, r: Key)
    ensures RequestKey(ns, r)[..32] == ns && RequestKey(ns, r)[32..] == r
  {
  }

  lemma CoherentLinks(s: Store, ns: Key, i: u64)
    requires Coherent(s) && HistoryOf(s, ns, i).Some?
    ensures |HistoryOf(s, ns, i).value| == 32 && LinkOk(s, ns, Head(i, HistoryOf(s, ns, i).value)) && Receipted(s, ns, i)
  {
    hide HistoryKey, DecodeHead, DecodeReceipt;
  }

  lemma CoherentAccepted(s: Store)
    requires Coherent(s)
    ensures Accepted(s)
  {
    hide HistoryKey, DecodeHead, DecodeReceipt, DecodeBE, Keys, Contiguous, InSequence, OneReceiptEach, LinkOk, Receipted, ReceiptsMatch;
    CoherentHereditary(s);
    SequenceIsHereditary(s);
    CoherentReceipts(s);
    forall k | At(s, Heads, k).Some?
      ensures HeadOk(s, k)
    {
      CoherentLinks(s, k, HeadOf(s, k).value.index);
    }
    forall k | At(s, History, k).Some?
      ensures HistoryOk(s, k)
    {
      HistoryKeyParts(k);
      CoherentLinks(s, k[..32], IndexOf(k));
    }
  }

  lemma CoherentHereditary(s: Store)
    requires Coherent(s)
    ensures Hereditary(s)
  {
    hide HistoryOf, HeadOf, HeadRows, HistoryRows, RequestRows, ReceiptsMatch;
  }

  lemma CoherentReceipts(s: Store)
    requires Coherent(s)
    ensures forall k :: At(s, Requests, k).Some? ==> RequestOk(s, k)
    ensures OneReceiptEach(s, Keys(s, Requests))
  {
    hide HistoryKey, DecodeHead, DecodeReceipt, DecodeBE, Keys, LinkOk, Contiguous;
    forall k | At(s, Requests, k).Some?
      ensures RequestOk(s, k)
    {
      assert k == RequestKey(k[..32], k[32..]);
      assert ReceiptOf(s, k[..32], k[32..]) == RequestAt(s, k);
      CoherentLinks(s, k[..32], RequestAt(s, k).value.1.index);
    }
    KeysFacts(s, Requests);
    var keys := Keys(s, Requests);
    forall i, j | 0 <= i < j < |keys|
      ensures !SamePosition(s, keys[i], keys[j])
    {
      var k, l := keys[i], keys[j];
      assert k in keys && l in keys;
      assert k == RequestKey(k[..32], k[32..]) && l == RequestKey(l[..32], l[32..]);
      if SamePosition(s, k, l) {
        var n := RequestAt(s, k).value.1.index;
        assert IsReceipt(s, k[..32], k[32..], n) && IsReceipt(s, k[..32], l[32..], n);
        assert ByteOrder()(k, l);
        LtTotal(k, l);
      }
    }
  }

  // The rows checked one by one, in scan order, are in order just when the store is coherent.
  lemma AcceptedIsCoherent(s: Store)
    ensures Accepted(s) <==> Coherent(s)
  {
    hide Accepted, HeadRows, HistoryRows, RequestRows, Contiguous, EndsAtHead, ReceiptsMatch;
    if Accepted(s) {
      AcceptedShapes(s);
      AcceptedHistory(s);
      AcceptedReceipts(s);
    }
    if Coherent(s) {
      CoherentAccepted(s);
    }
  }
}
