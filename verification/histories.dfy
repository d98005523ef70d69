// What every run of the application store keeps: whole histories, one receipt per entry,
// immutable rows and fences.
module Histories {
  import opened Wrappers
  import opened Bytes
  import opened Integers
  import opened Stores
  import opened Scans
  import opened Databases
  import opened Applications

  // ---------------------------------------------------------------- coherence

  ghost predicate HeadRows(s: Store)
  {
    forall k :: At(s, Heads, k).Some? ==> |k| == 32 && DecodeHead(At(s, Heads, k).value).Some?
  }

  ghost predicate HistoryRows(s: Store)
  {
    forall k :: At(s, History, k).Some? ==>
      |k| == 40 && |At(s, History, k).value| == 32 && At(s, Content, At(s, History, k).value).Some?
  }

  ghost predicate RequestRows(s: Store)
  {
    forall k :: At(s, Requests, k).Some? ==> |k| == 64 && DecodeReceipt(At(s, Requests, k).value).Some?
  }

  // A namespace's history is exactly 0 ..= head.index.
  ghost predicate Contiguous(s: Store)
  {
    forall ns: Key, i: u64 :: HistoryOf(s, ns, i).Some? <==> HeadOf(s, ns).Some? && i <= HeadOf(s, ns).value.index
  }

  // It ends at the head's commit.
  ghost predicate EndsAtHead(s: Store)
  {
    forall ns: Key :: HeadOf(s, ns).Some? ==> HistoryOf(s, ns, HeadOf(s, ns).value.index) == Some(HeadOf(s, ns).value.commit)
  }

  ghost predicate IsReceipt(s: Store, ns: Key, request: Key, i: u64)
  {
    ReceiptOf(s, ns, request).Some? && ReceiptOf(s, ns, request).value.1.index == i
  }

  // Receipts and history entries are in bijection.
  ghost predicate ReceiptsMatch(s: Store)
  {
    && (forall ns: Key, r: Key :: ReceiptOf(s, ns, r).Some? ==>
          HistoryOf(s, ns, ReceiptOf(s, ns, r).value.1.index) == Some(ReceiptOf(s, ns, r).value.1.commit))
    && (forall ns: Key, p: Key, q: Key, i: u64 :: IsReceipt(s, ns, p, i) && IsReceipt(s, ns, q, i) ==> p == q)
    && (forall ns: Key, i: u64 :: HistoryOf(s, ns, i).Some? ==> exists r: Key :: IsReceipt(s, ns, r, i))
  }

  ghost predicate Coherent(s: Store)
  {
    HeadRows(s) && HistoryRows(s) && RequestRows(s) && Contiguous(s) && EndsAtHead(s) && ReceiptsMatch(s)
  }

  // Coherence, read off the rows: their widths, and a head's index and commit, an entry's commit, a
  // receipt's index and commit as they lie in the bytes.
  ghost predicate Chained(s: Store)
  {
    && (forall k :: At(s, Heads, k).Some? ==> |k| == 32 && |At(s, Heads, k).value| == 40)
    && (forall k :: At(s, Requests, k).Some? ==> |k| == 64 && |At(s, Requests, k).value| == 72)
    && (forall k :: At(s, History, k).Some? ==> |k| == 40 && |At(s, History, k).value| == 32 && At(s, Content, At(s, History, k).value).Some?)
    && (forall ns: Key, i: u64 :: At(s, History, ns + BigEndian(i)).Some? <==> At(s, Heads, ns).Some? && i <= DecodeU64(At(s, Heads, ns).value[..8]))
    && (forall ns: Key :: At(s, Heads, ns).Some? ==> EntryIs(s, ns, At(s, Heads, ns).value))
    && (forall ns: Key, q: Key :: At(s, Requests, ns + q).Some? ==> EntryIs(s, ns, At(s, Requests, ns + q).value[32..]))
    && (forall ns: Key, i: u64 :: At(s, History, ns + BigEndian(i)).Some? ==> exists q: Key :: Answers(s, ns, q, i))
    && (forall ns: Key, q: Key, x: Key, i: u64 :: Answers(s, ns, q, i) && Answers(s, ns, x, i) ==> q == x)
  }

  // The history of ns has this commit at this index.
  ghost predicate EntryIs(s: Store, ns: Key, head: seq<byte>)
  {
    |head| == 40 && At(s, History, ns + BigEndian(DecodeU64(head[..8]))) == Some(head[8..])
  }

  // The request's receipt names this index.
  ghost predicate Answers(s: Store, ns: Key, request: Key, i: u64)
  {
    var receipt := At(s, Requests, ns + request);
    receipt.Some? && |receipt.value| == 72 && DecodeU64(receipt.value[32..40]) == i
  }

  lemma AnswersIsReceipt(s: Store, ns: Key, request: Key, i: u64)
    ensures Answers(s, ns, request, i) <==> IsReceipt(s, ns, request, i)
  {
    hide DecodeU64;
    var receipt := At(s, Requests, ns + request);
    assert receipt.Some? && |receipt.value| == 72 ==> receipt.value[32..][..8] == receipt.value[32..40];
  }

  lemma EntryIsHistory(s: Store, ns: Key, head: seq<byte>)
    ensures EntryIs(s, ns, head) <==> DecodeHead(head).Some? && HistoryOf(s, ns, DecodeHead(head).value.index) == Some(DecodeHead(head).value.commit)
  {
    hide DecodeU64, BigEndian;
  }

  lemma ReceiptEntry(s: Store, ns: Key, request: Key)
    requires At(s, Requests, ns + request).Some? && |At(s, Requests, ns + request).value| == 72
    ensures var receipt := ReceiptOf(s, ns, request);
            receipt.Some? && (EntryIs(s, ns, At(s, Requests, ns + request).value[32..]) <==> HistoryOf(s, ns, receipt.value.1.index) == Some(receipt.value.1.commit))
  {
    hide DecodeU64, BigEndian;
  }

  lemma RowsAre(s: Store)
    requires HeadRows(s) && HistoryRows(s) && RequestRows(s)
    ensures forall k :: At(s, Heads, k).Some? ==> |k| == 32 && |At(s, Heads, k).value| == 40
    ensures forall k :: At(s, Requests, k).Some? ==> |k| == 64 && |At(s, Requests, k).value| == 72
  {
    hide DecodeU64;
  }

  // A coherent store is chained.
  lemma CoherentIsChained(s: Store)
    requires Coherent(s)
    ensures Chained(s)
  {
    hide HeadRows, RequestRows, Answers, EntryIs, HistoryOf, HeadOf, ReceiptOf, IsReceipt, BigEndian, DecodeU64;
    RowsAre(s);
    forall ns: Key
      ensures HeadOf(s, ns).Some? <==> At(s, Heads, ns).Some?
      ensures At(s, Heads, ns).Some? ==> HeadOf(s, ns).value.index == DecodeU64(At(s, Heads, ns).value[..8]) && EntryIs(s, ns, At(s, Heads, ns).value)
    {
      HeadEntry(s, ns);
    }
    forall ns: Key, i: u64
      ensures HistoryOf(s, ns, i) == At(s, History, ns + BigEndian(i))
    {
      HistoryAt(s, ns, i);
    }
    forall ns: Key, q: Key | At(s, Requests, ns + q).Some?
      ensures EntryIs(s, ns, At(s, Requests, ns + q).value[32..])
    {
      ReceiptEntry(s, ns, q);
    }
    forall ns: Key, i: u64 | At(s, History, ns + BigEndian(i)).Some?
      ensures exists q: Key :: Answers(s, ns, q, i)
    {
      HistoryAt(s, ns, i);
      var q: Key :| IsReceipt(s, ns, q, i);
      AnswersIsReceipt(s, ns, q, i);
    }
    forall ns: Key, q: Key, x: Key, i: u64 | Answers(s, ns, q, i) && Answers(s, ns, x, i)
      ensures q == x
    {
      AnswersIsReceipt(s, ns, q, i);
      AnswersIsReceipt(s, ns, x, i);
    }
  }

  // And a chained one is coherent.
  lemma ChainedIsCoherent(s: Store)
    requires Chained(s)
    ensures Coherent(s)
  {
    hide HeadRows, RequestRows, Answers, EntryIs, HistoryOf, HeadOf, ReceiptOf, IsReceipt, BigEndian, DecodeU64;
    WidthsAre(s);
    forall ns: Key, i: u64
      ensures HistoryOf(s, ns, i) == At(s, History, ns + BigEndian(i))
    {
      HistoryAt(s, ns, i);
    }
    forall ns: Key
      ensures HeadOf(s, ns).Some? <==> At(s, Heads, ns).Some?
      ensures HeadOf(s, ns).Some? ==> HeadOf(s, ns).value.index == DecodeU64(At(s, Heads, ns).value[..8])
      ensures HeadOf(s, ns).Some? ==> HistoryOf(s, ns, HeadOf(s, ns).value.index) == Some(HeadOf(s, ns).value.commit)
    {
      EntryHead(s, ns);
    }
    ChainedReceipts(s);
  }

  lemma ChainedExactly(s: Store)
    ensures Coherent(s) <==> Chained(s)
  {
    hide Coherent, Chained;
    if Coherent(s) {
      CoherentIsChained(s);
    }
    if Chained(s) {
      ChainedIsCoherent(s);
    }
  }

  lemma WidthsAre(s: Store)
    requires Chained(s)
    ensures HeadRows(s) && HistoryRows(s) && RequestRows(s)
  {
    hide DecodeU64, BigEndian, EntryIs, Answers;
  }

  lemma EntryHead(s: Store, ns: Key)
    requires At(s, Heads, ns).Some? ==> EntryIs(s, ns, At(s, Heads, ns).value)
    ensures HeadOf(s, ns).Some? <==> At(s, Heads, ns).Some?
    ensures HeadOf(s, ns).Some? ==> HeadOf(s, ns).value.index == DecodeU64(At(s, Heads, ns).value[..8])
    ensures HeadOf(s, ns).Some? ==> HistoryOf(s, ns, HeadOf(s, ns).value.index) == Some(HeadOf(s, ns).value.commit)
  {
    hide DecodeU64, BigEndian;
    if At(s, Heads, ns).Some? {
      EntryIsHistory(s, ns, At(s, Heads, ns).value);
    }
  }

  lemma ChainedReceipts(s: Store)
    requires Chained(s)
    ensures ReceiptsMatch(s)
  {
    hide Answers, EntryIs, HistoryOf, HeadOf, ReceiptOf, IsReceipt, BigEndian, DecodeU64;
    forall ns: Key, r: Key | ReceiptOf(s, ns, r).Some?
      ensures HistoryOf(s, ns, ReceiptOf(s, ns, r).value.1.index) == Some(ReceiptOf(s, ns, r).value.1.commit)
    {
      ReceiptRow(s, ns, r);
      ReceiptEntry(s, ns, r);
    }
    forall ns: Key, p: Key, q: Key, i: u64 | IsReceipt(s, ns, p, i) && IsReceipt(s, ns, q, i)
      ensures p == q
    {
      AnswersIsReceipt(s, ns, p, i);
      AnswersIsReceipt(s, ns, q, i);
    }
    forall ns: Key, i: u64 | HistoryOf(s, ns, i).Some?
      ensures exists r: Key :: IsReceipt(s, ns, r, i)
    {
      HistoryAt(s, ns, i);
      var r: Key :| Answers(s, ns, r, i);
      AnswersIsReceipt(s, ns, r, i);
    }
  }

  lemma ReceiptRow(s: Store, ns: Key, r: Key)
    ensures ReceiptOf(s, ns, r).Some? ==> At(s, Requests, ns + r).Some?
  {
  }

  lemma HistoryAt(s: Store, ns: Key, i: u64)
    ensures HistoryOf(s, ns, i) == At(s, History, ns + BigEndian(i))
  {
  }

  lemma HeadEntry(s: Store, ns: Key)
    requires EndsAtHead(s) && HeadRows(s)
    ensures HeadOf(s, ns).Some? <==> At(s, Heads, ns).Some?
    ensures At(s, Heads, ns).Some? ==>
              |At(s, Heads, ns).value| == 40 && HeadOf(s, ns).value.index == DecodeU64(At(s, Heads, ns).value[..8]) && EntryIs(s, ns, At(s, Heads, ns).value)
  {
    hide DecodeU64, BigEndian, EntryIs, HistoryOf;
    if At(s, Heads, ns).Some? {
      EntryIsHistory(s, ns, At(s, Heads, ns).value);
    }
  }

  // The decoded rows after an accepted write.
  lemma AdvancedRows(s: Store, v: Store, w: Write, ns: Key, i: u64, r: Key)
    requires Advances(s, v, w)
    ensures HeadOf(v, ns) == if ns == w.namespace then Some(w.head) else HeadOf(s, ns)
    ensures HistoryOf(v, ns, i) == if ns == w.namespace && i == w.head.index then Some(w.head.commit) else HistoryOf(s, ns, i)
    ensures ReceiptOf(v, ns, r) == if ns == w.namespace && r == w.request then Some((w.fingerprint, w.head)) else ReceiptOf(s, ns, r)
  {
    hide HistoryKey, RequestKey, EncodeHead, EncodeReceipt, DecodeHead, DecodeReceipt;
    HeadRoundTrip(w.head);
    ReceiptRoundTrip(w.fingerprint, w.head);
    if HistoryKey(ns, i) == HistoryKey(w.namespace, w.head.index) {
      HistoryKeyInjective(ns, i, w.namespace, w.head.index);
    }
    if RequestKey(ns, r) == RequestKey(w.namespace, w.request) {
      RequestKeyInjective(ns, r, w.namespace, w.request);
    }
  }

  lemma RowsKept(s: Store, v: Store, w: Write)
    requires Advances(s, v, w) && HeadRows(s) && HistoryRows(s) && RequestRows(s)
    ensures HeadRows(v) && HistoryRows(v) && RequestRows(v)
  {
    hide HistoryKey, RequestKey, EncodeHead, EncodeReceipt, DecodeHead, DecodeReceipt;
    HeadRoundTrip(w.head);
    ReceiptRoundTrip(w.fingerprint, w.head);
    forall k | At(v, History, k).Some?
      ensures |k| == 40 && |At(v, History, k).value| == 32 && At(v, Content, At(v, History, k).value).Some?
    {
    }
  }

  lemma HistoryKept(s: Store, v: Store, w: Write)
    requires Advances(s, v, w) && Contiguous(s) && EndsAtHead(s) && w.head.index == NextIndex(HeadOf(s, w.namespace))
    ensures Contiguous(v) && EndsAtHead(v)
  {
    hide Advances, HistoryOf, HeadOf;
    forall ns: Key, i: u64
      ensures HistoryOf(v, ns, i).Some? <==> HeadOf(v, ns).Some? && i <= HeadOf(v, ns).value.index
    {
      AdvancedRows(s, v, w, ns, i, ns);
    }
    forall ns: Key | HeadOf(v, ns).Some?
      ensures HistoryOf(v, ns, HeadOf(v, ns).value.index) == Some(HeadOf(v, ns).value.commit)
    {
      AdvancedRows(s, v, w, ns, HeadOf(v, ns).value.index, ns);
    }
  }

  lemma NoneYet(s: Store, ns: Key, r: Key, i: u64)
    requires ReceiptsMatch(s) && HistoryOf(s, ns, i).None?
    ensures !IsReceipt(s, ns, r, i)
  {
    hide HistoryOf, ReceiptOf;
  }

  lemma ReceiptsKept(s: Store, v: Store, w: Write)
    requires Advances(s, v, w) && Contiguous(s) && ReceiptsMatch(s) && w.head.index == NextIndex(HeadOf(s, w.namespace))
    requires ReceiptOf(s, w.namespace, w.request).None?
    ensures ReceiptsMatch(v)
  {
    hide Advances, HistoryOf, HeadOf, ReceiptOf;
    forall ns: Key, r: Key | ReceiptOf(v, ns, r).Some?
      ensures HistoryOf(v, ns, ReceiptOf(v, ns, r).value.1.index) == Some(ReceiptOf(v, ns, r).value.1.commit)
    {
      AdvancedRows(s, v, w, ns, ReceiptOf(v, ns, r).value.1.index, r);
    }
    assert HistoryOf(s, w.namespace, w.head.index).None?;
    forall ns: Key, p: Key, q: Key, i: u64 | IsReceipt(v, ns, p, i) && IsReceipt(v, ns, q, i)
      ensures p == q
    {
      AdvancedRows(s, v, w, ns, i, p);
      AdvancedRows(s, v, w, ns, i, q);
      NoneYet(s, w.namespace, p, w.head.index);
      NoneYet(s, w.namespace, q, w.head.index);
      assert ns != w.namespace || i != w.head.index ==> IsReceipt(s, ns, p, i) && IsReceipt(s, ns, q, i);
    }
    forall ns: Key, i: u64 | HistoryOf(v, ns, i).Some?
      ensures exists r: Key :: IsReceipt(v, ns, r, i)
    {
      AdvancedRows(s, v, w, ns, i, w.request);
      if ns == w.namespace && i == w.head.index {
        assert IsReceipt(v, ns, w.request, i);
      } else {
        var r: Key :| IsReceipt(s, ns, r, i);
        AdvancedRows(s, v, w, ns, i, r);
        assert IsReceipt(v, ns, r, i);
      }
    }
  }

  // The same heads, history and receipts, over at least the same content.
  ghost predicate SameLog(s: Store, v: Store)
  {
    SameOn(s, v, Heads) && SameOn(s, v, History) && SameOn(s, v, Requests) && Extends(s, v, Content)
  }

  lemma SameRows(s: Store, v: Store, ns: Key, i: u64, r: Key)
    requires SameLog(s, v)
    ensures HeadOf(v, ns) == HeadOf(s, ns) && HistoryOf(v, ns, i) == HistoryOf(s, ns, i) && ReceiptOf(v, ns, r) == ReceiptOf(s, ns, r)
    ensures IsReceipt(v, ns, r, i) == IsReceipt(s, ns, r, i)
  {
    hide HistoryKey, RequestKey, DecodeHead, DecodeReceipt;
  }

  lemma SameShapes(s: Store, v: Store)
    requires SameLog(s, v) && HeadRows(s) && HistoryRows(s) && RequestRows(s)
    ensures HeadRows(v) && HistoryRows(v) && RequestRows(v)
  {
    hide DecodeHead, DecodeReceipt;
  }

  lemma SameHistory(s: Store, v: Store)
    requires SameLog(s, v) && Contiguous(s) && EndsAtHead(s)
    ensures Contiguous(v) && EndsAtHead(v)
  {
    hide SameLog, HistoryOf, HeadOf;
    forall ns: Key, i: u64
      ensures HistoryOf(v, ns, i) == HistoryOf(s, ns, i) && HeadOf(v, ns) == HeadOf(s, ns)
    {
      SameRows(s, v, ns, i, ns);
    }
  }

  lemma SameReceipts(s: Store, v: Store)
    requires SameLog(s, v) && ReceiptsMatch(s)
    ensures ReceiptsMatch(v)
  {
    hide SameLog, HistoryOf, HeadOf, ReceiptOf, IsReceipt;
    forall ns: Key, r: Key | ReceiptOf(v, ns, r).Some?
      ensures HistoryOf(v, ns, ReceiptOf(v, ns, r).value.1.index) == Some(ReceiptOf(v, ns, r).value.1.commit)
    {
      SameRows(s, v, ns, ReceiptOf(v, ns, r).value.1.index, r);
    }
    forall ns: Key, p: Key, q: Key, i: u64 | IsReceipt(v, ns, p, i) && IsReceipt(v, ns, q, i)
      ensures p == q
    {
      SameRows(s, v, ns, i, p);
      SameRows(s, v, ns, i, q);
    }
    forall ns: Key, i: u64 | HistoryOf(v, ns, i).Some?
      ensures exists r: Key :: IsReceipt(v, ns, r, i)
    {
      SameRows(s, v, ns, i, ns);
      var r: Key :| IsReceipt(s, ns, r, i);
      SameRows(s, v, ns, i, r);
    }
  }

  lemma SameCoherent(s: Store, v: Store)
    requires SameLog(s, v) && Coherent(s)
    ensures Coherent(v)
  {
    hide SameLog, HeadRows, HistoryRows, RequestRows, Contiguous, EndsAtHead, ReceiptsMatch;
    SameShapes(s, v);
    SameHistory(s, v);
    SameReceipts(s, v);
  }

  lemma NextCoherent(s: Store, v: Store)
    requires Next(s, v) && Coherent(s)
    ensures Coherent(v)
  {
    hide Coherent, Acceptable, Applied, Advances;
    if SameRecords(s, v) {
      SameCoherent(s, v);
    } else {
      var w, plan :| Acceptable(s, w, plan) && SameRecords(Applied(s, w, plan), v);
      AppliedAdvances(s, v, w, plan);
      AdvanceCoherent(s, v, w, plan);
    }
  }

  lemma AdvanceCoherent(s: Store, v: Store, w: Write, plan: Plan)
    requires Acceptable(s, w, plan) && Advances(s, v, w) && Coherent(s)
    ensures Coherent(v)
  {
    hide Advances, HeadRows, HistoryRows, RequestRows, Contiguous, EndsAtHead, ReceiptsMatch, IsFenced, PlanReady, AllPuttable;
    RowsKept(s, v, w);
    HistoryKept(s, v, w);
    ReceiptsKept(s, v, w);
  }

  // ---------------------------------------------------------------- runs

  ghost predicate IsRun(trace: seq<Store>)
  {
    trace != [] && trace[0] == map[] && forall i :: 0 <= i < |trace| - 1 ==> Next(trace[i], trace[i + 1])
  }

  // Every store a run reaches from empty is coherent.
  lemma {:induction false} RunCoherent(trace: seq<Store>, n: nat)
    requires IsRun(trace) && n < |trace|
    ensures Coherent(trace[n]) && Chained(trace[n])
  {
    hide Next, Coherent, Chained;
    ChainedExactly(trace[n]);
    if n == 0 {
      EmptyCoherent();
    } else {
      RunCoherent(trace, n - 1);
      NextCoherent(trace[n - 1], trace[n]);
    }
  }

  // No store a run reaches holds a row that a bounded read refuses, so a request new to it is
  // applied exactly if it is acceptable.
  lemma {:induction false} RunLegible(trace: seq<Store>, n: nat)
    requires IsRun(trace) && n < |trace|
    ensures Legible(trace[n])
  {
    hide Next, Legible;
    if n == 0 {
      EmptyLegible();
    } else {
      RunLegible(trace, n - 1);
      NextLegible(trace[n - 1], trace[n]);
    }
  }

  lemma EmptyLegible()
    ensures Legible(map[])
  {
  }

  lemma NextLegible(s: Store, v: Store)
    requires Next(s, v) && Legible(s)
    ensures Legible(v)
  {
    hide Acceptable, Applied;
    if !SameRecords(s, v) {
      var w, plan :| Acceptable(s, w, plan) && SameRecords(Applied(s, w, plan), v);
      AppliedLegible(s, v, w, plan);
    }
  }

  lemma AppliedLegible(s: Store, v: Store, w: Write, plan: Plan)
    requires Acceptable(s, w, plan) && SameRecords(Applied(s, w, plan), v) && Legible(s)
    ensures Legible(v)
  {
    hide PutAll, AllPuttable, Filled, Transitioned, PlanReady, HistoryKey, RequestKey, EncodeHead, EncodeReceipt, IsFenced, WriteShape;
    var f := Filled(s, w);
    FilledShort(s, w);
    FilledKeeps(s, w, Migration);
    TransitionedKeeps(f, w.namespace, plan, Content);
    StatusShort(f, w.namespace, plan);
    var t := Transitioned(f, w.namespace, plan);
    forall k | At(v, Content, k).Some?
      ensures |At(v, Content, k).value| <= MAX_BYTES_VALUE
    {
      assert At(v, Content, k) == At(Applied(s, w, plan), Content, k) == At(t, Content, k) == At(f, Content, k);
    }
    assert At(v, Migration, STATUS) == At(t, Migration, STATUS);
  }

  lemma FilledShort(s: Store, w: Write)
    requires WriteShape(w) && Legible(s)
    ensures ContentShort(Filled(s, w))
  {
    hide PutAll, WriteShape;
    CommitShort(s, w);
    PutAllElsewhere(s, Claims, w.claims, Content);
    SamePut(s, PutAll(s, Claims, w.claims), Content, w.content);
  }

  lemma StatusShort(s: Store, ns: Key, plan: Plan)
    requires PlanShape(plan, ns) && (At(s, Migration, STATUS).Some? ==> |At(s, Migration, STATUS).value| <= 16)
    ensures var v := Transitioned(s, ns, plan); At(v, Migration, STATUS).Some? ==> |At(v, Migration, STATUS).value| <= 16
  {
    hide PutAll, Generation;
    match plan
    case Nothing =>
    case Records(writes) => WriteAllOutside(s, writes, Migration);
    case Migrate(manifest, sources) =>
      FenceKeyShort(ns);
      var rows := FenceRows(ns, manifest, sources);
      assert rows[..|sources|] == rows;
      FencesAside(s, ns, manifest, sources, |sources|, STATUS);
  }

  lemma EmptyCoherent()
    ensures Coherent(map[])
  {
  }

  // What one store passes on to every later one.
  ghost predicate Outlives(s: Store, v: Store)
  {
    && Extends(s, v, Content) && Extends(s, v, Claims) && Extends(s, v, History) && Extends(s, v, Requests)
    && (forall ns: Key :: HeadOf(s, ns).Some? ==> HeadOf(v, ns).Some? && HeadOf(s, ns).value.index <= HeadOf(v, ns).value.index)
    && (forall ns: Key :: IsFenced(s, ns) ==> IsFenced(v, ns) && HeadOf(v, ns) == HeadOf(s, ns))
  }

  lemma HistoryExtends(s: Store, v: Store, w: Write)
    requires Advances(s, v, w) && Contiguous(s) && w.head.index == NextIndex(HeadOf(s, w.namespace))
    requires At(s, Requests, RequestKey(w.namespace, w.request)).None?
    ensures Extends(s, v, History) && Extends(s, v, Requests)
  {
    hide HistoryKey, RequestKey, EncodeReceipt, EncodeHead, HeadOf;
    assert HistoryOf(s, w.namespace, w.head.index).None?;
  }

  lemma FencesKept(s: Store, v: Store, w: Write, ns: Key)
    requires Advances(s, v, w) && !IsFenced(s, w.namespace) && IsFenced(s, ns)
    ensures IsFenced(v, ns) && HeadOf(v, ns) == HeadOf(s, ns)
  {
    hide FenceKey, StageKey, HistoryKey, RequestKey, EncodeReceipt, EncodeHead;
    FenceIsNotStatus(ns);
  }

  lemma AdvanceOutlives(s: Store, v: Store, w: Write, plan: Plan)
    requires Acceptable(s, w, plan) && Advances(s, v, w) && Coherent(s)
    ensures Outlives(s, v)
  {
    hide IsFenced, PlanReady, AllPuttable, HistoryKey, RequestKey, EncodeHead, EncodeReceipt, DecodeHead, DecodeReceipt, HeadOf, PutAll;
    HistoryExtends(s, v, w);
    forall ns: Key | HeadOf(s, ns).Some?
      ensures HeadOf(v, ns).Some? && HeadOf(s, ns).value.index <= HeadOf(v, ns).value.index
    {
      AdvancedRows(s, v, w, ns, 0, ns);
    }
    forall ns: Key | IsFenced(s, ns)
      ensures IsFenced(v, ns) && HeadOf(v, ns) == HeadOf(s, ns)
    {
      FencesKept(s, v, w, ns);
    }
  }

  lemma NextOutlives(s: Store, v: Store)
    requires Next(s, v) && Coherent(s)
    ensures Outlives(s, v)
  {
    hide Coherent, Acceptable, Applied, Advances;
    if SameRecords(s, v) {
      SameOutlives(s, v);
    } else {
      var w, plan :| Acceptable(s, w, plan) && SameRecords(Applied(s, w, plan), v);
      AppliedAdvances(s, v, w, plan);
      AdvanceOutlives(s, v, w, plan);
    }
  }

  lemma SameOutlives(s: Store, v: Store)
    requires SameRecords(s, v)
    ensures Outlives(s, v)
  {
  }

  lemma OutlivesTrans(s: Store, v: Store, u: Store)
    requires Outlives(s, v) && Outlives(v, u)
    ensures Outlives(s, u)
  {
    hide IsFenced, HeadOf;
  }

  // Along a run content, claims, history and receipts never change once written, heads never fall
  // back, and the head of a fenced namespace never moves again.
  lemma {:induction false} RunOutlives(trace: seq<Store>, m: nat, n: nat)
    requires IsRun(trace) && m <= n < |trace|
    ensures Outlives(trace[m], trace[n])
  {
    hide Next, Outlives, Coherent;
    if m == n {
      SameOutlives(trace[m], trace[m]);
    } else {
      RunOutlives(trace, m, n - 1);
      RunCoherent(trace, n - 1);
      NextOutlives(trace[n - 1], trace[n]);
      OutlivesTrans(trace[m], trace[n - 1], trace[n]);
    }
  }

  // Once a write was applied, no write of its namespace that expects the same head is acceptable: of
  // any two, over a whole run, at most one is applied.
  lemma ExpectedOnce(trace: seq<Store>, m: nat, n: nat, w: Write, plan: Plan, again: Write)
    requires IsRun(trace) && m < n < |trace|
    requires Acceptable(trace[m], w, plan) && SameRecords(Applied(trace[m], w, plan), trace[m + 1])
    requires again.namespace == w.namespace && again.expected == w.expected
    ensures HeadOf(trace[n], again.namespace) != again.expected && forall p :: !Acceptable(trace[n], again, p)
  {
    hide Acceptable, Applied, SameRecords, IsRun, HeadOf;
    AcceptableMeans(trace[m], w, plan);
    AppliedRows(trace[m], trace[m + 1], w, plan);
    RunOutlives(trace, m + 1, n);
    assert HeadOf(trace[n], w.namespace) != again.expected;
    forall p
      ensures !Acceptable(trace[n], again, p)
    {
      AllAcceptable(trace[n], again, p);
    }
  }
}
