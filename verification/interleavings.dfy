// A transfer and ordinary writes take turns on one target: what every such run keeps, and that
// the target's log is whole again once the transfer is complete.
module Interleavings {
  import opened Wrappers
  import opened Bytes
  import opened Integers
  import opened Stores
  import opened Scans
  import opened Databases
  import opened Applications
  import opened Histories
  import opened Links
  import opened Transfers
  import Cursors

  // ---------------------------------------------------------------- whose rows

  predicate Chained(t: Table)
  {
    t == Heads || t == History || t == Requests
  }

  // A row of the log belongs to the namespace its key starts with.
  predicate Owned(k: seq<byte>, origins: set<Key>)
  {
    |k| >= 32 && k[..32] in origins
  }

  ghost function Origins(t: TransferSource): set<Key>
  {
    set i | 0 <= i < |t.sources| :: t.sources[i].0
  }

  // v without the log rows of the origins.
  ghost function Others(v: Store, origins: set<Key>): Store
  {
    map x | x in v && !(Chained(x.table) && Owned(x.key, origins)) :: v[x]
  }

  lemma OthersAt(v: Store, origins: set<Key>, t: Table, k: seq<byte>)
    ensures At(Others(v, origins), t, k) == if Chained(t) && Owned(k, origins) then None else At(v, t, k)
  {
  }

  // The log rows of the origins that v holds are the source's.
  ghost predicate FromSource(s: Store, v: Store, origins: set<Key>)
  {
    forall t, k :: Chained(t) && Owned(k, origins) && At(v, t, k).Some? ==> At(v, t, k) == At(s, t, k)
  }

  // The source's log is its origins' alone.
  ghost predicate OfOrigins(s: Store, origins: set<Key>)
  {
    forall t, k :: Chained(t) && At(s, t, k).Some? ==> Owned(k, origins)
  }

  // So is every coherent log whose heads are the origins'.
  lemma CoherentOwned(s: Store, origins: set<Key>)
    requires Coherent(s) && forall ns: Key :: HeadOf(s, ns).Some? ==> ns in origins
    ensures OfOrigins(s, origins)
  {
    hide Coherent, HeadOf, HistoryOf, ReceiptOf, Owned;
    forall t, k | Chained(t) && At(s, t, k).Some?
      ensures Owned(k, origins)
    {
      RowHasHead(s, t, k);
      OwnedBy(k, k[..32], origins);
    }
  }

  lemma OwnedBy(k: seq<byte>, ns: Key, origins: set<Key>)
    requires |k| >= 32 && k[..32] == ns && ns in origins
    ensures Owned(k, origins)
  {
  }

  // In a coherent log no row stands without its namespace's head.
  lemma RowHasHead(s: Store, t: Table, k: seq<byte>)
    requires Coherent(s) && Chained(t) && At(s, t, k).Some?
    ensures |k| >= 32 && HeadOf(s, k[..32]).Some?
  {
    hide DecodeHead, DecodeReceipt;
    match t {
      case Heads =>
        assert k[..32] == k;
      case History =>
        var ns: Key, i := k[..32], DecodeBE(k[32..]);
        BECanonical(k[32..]);
        assert k == HistoryKey(ns, i);
        assert HistoryOf(s, ns, i).Some?;
      case Requests =>
        var ns: Key, r: Key := k[..32], k[32..];
        assert k == RequestKey(ns, r);
        assert ReceiptOf(s, ns, r).Some?;
        assert HistoryOf(s, ns, ReceiptOf(s, ns, r).value.1.index).Some?;
    }
  }

  // ---------------------------------------------------------------- the invariant

  // A transfer in progress: its target holds a prefix of the source, nothing else of the origins,
  // and a whole log of everyone else.
  ghost predicate Underway(t: TransferSource, s: Store, v: Store)
  {
    && At(v, Migration, CursorKey(t.manifest)).Some? && t.Resumable(s, v)
    && FromSource(s, v, Origins(t)) && Coherent(Others(v, Origins(t)))
  }

  ghost predicate Good(t: TransferSource, s: Store, v: Store)
  {
    (At(v, Migration, CursorKey(t.manifest)).None? && Coherent(v)) || Underway(t, s, v)
  }

  // Both are the same log to everyone but the origins.
  lemma OthersSame(v: Store, w: Store, origins: set<Key>)
    requires Extends(v, w, Content)
    requires forall t, k :: Chained(t) && !Owned(k, origins) ==> At(w, t, k) == At(v, t, k)
    ensures SameLog(Others(v, origins), Others(w, origins))
  {
    hide Others, Owned;
    forall t, k
      ensures Chained(t) ==> At(Others(w, origins), t, k) == At(Others(v, origins), t, k)
      ensures t == Content && At(Others(v, origins), t, k).Some? ==> At(Others(w, origins), t, k) == At(Others(v, origins), t, k)
    {
      OthersAt(v, origins, t, k);
      OthersAt(w, origins, t, k);
    }
  }

  // Rows of the source are the origins' rows.
  lemma AddsOwned(s: Store, v: Store, w: Store, origins: set<Key>)
    requires OfOrigins(s, origins) && OnlyAdds(s, v, w) && Grows(v, w)
    ensures forall t, k :: Chained(t) && !Owned(k, origins) ==> At(w, t, k) == At(v, t, k)
    ensures FromSource(s, v, origins) ==> FromSource(s, w, origins)
    ensures Extends(v, w, Content)
  {
    hide Owned;
    forall t, k | Chained(t) && !Owned(k, origins)
      ensures At(w, t, k) == At(v, t, k)
    {
      assert At(w, t, k) != At(v, t, k) ==> At(w, t, k) == At(s, t, k);
    }
  }

  // Free origins have no rows in a coherent log.
  lemma FreeIsAbsent(t: TransferSource, v: Store)
    requires Coherent(v) && forall i :: 0 <= i < |t.sources| ==> t.FreeOrigin(v, t.sources[i].0)
    ensures forall u, k :: Chained(u) && Owned(k, Origins(t)) ==> At(v, u, k).None?
  {
    hide Coherent, HeadOf;
    forall u, k | Chained(u) && Owned(k, Origins(t))
      ensures At(v, u, k).None?
    {
      if At(v, u, k).Some? {
        RowHasHead(v, u, k);
        var i :| 0 <= i < |t.sources| && t.sources[i].0 == k[..32];
        assert t.FreeOrigin(v, t.sources[i].0);
        NoHead(v, k[..32]);
      }
    }
  }

  lemma NoHead(v: Store, ns: Key)
    requires At(v, Heads, ns).None?
    ensures HeadOf(v, ns).None?
  {
  }

  lemma OthersAll(v: Store, origins: set<Key>)
    requires forall t, k :: Chained(t) && Owned(k, origins) ==> At(v, t, k).None?
    ensures Others(v, origins) == v
  {
    forall x | x in v
      ensures x in Others(v, origins)
    {
      assert Chained(x.table) && Owned(x.key, origins) ==> At(v, x.table, x.key).None?;
    }
  }

  // ---------------------------------------------------------------- steps

  // A stretch of the transfer keeps the invariant.
  lemma MovesGood(t: TransferSource, s: Store, v: Store, w: Store)
    requires OfOrigins(s, Origins(t)) && Good(t, s, v) && t.Moves(s, v, w)
    ensures Good(t, s, w)
  {
    hide Coherent, Others, Owned, OfOrigins, Staged, CursorKey, CursorMoves, t.Prepared, Origins, FromSource, OnlyAdds, Grows, SameRecords, SameLog;
    var origins := Origins(t);
    AddsOwned(s, v, w, origins);
    OthersSame(v, w, origins);
    if At(v, Migration, CursorKey(t.manifest)).Some? {
      SameCoherent(Others(v, origins), Others(w, origins));
    } else if At(w, Migration, CursorKey(t.manifest)).None? {
      RecordsLog(v, w);
      SameCoherent(v, w);
    } else {
      FreeIsAbsent(t, v);
      OthersAll(v, origins);
      SameCoherent(v, Others(w, origins));
      NothingFrom(s, v, origins);
    }
  }

  lemma RecordsLog(v: Store, w: Store)
    requires SameRecords(v, w)
    ensures SameLog(v, w)
  {
  }

  lemma NothingFrom(s: Store, v: Store, origins: set<Key>)
    requires forall t, k :: Chained(t) && Owned(k, origins) ==> At(v, t, k).None?
    ensures FromSource(s, v, origins)
  {
  }

  // A write of another namespace leaves the origins' rows, and the transfer, alone.
  lemma WriteAside(t: TransferSource, s: Store, v: Store, w: Store, wr: Write)
    requires OfOrigins(s, Origins(t)) && Underway(t, s, v) && Advances(v, w, wr) && wr.namespace !in Origins(t)
    ensures forall u, k :: Chained(u) && Owned(k, Origins(t)) ==> At(w, u, k) == At(v, u, k)
    ensures Kept(s, v, w) && CursorKept(t, v, w)
  {
    hide EncodeHead, EncodeReceipt, Coherent, t.Resumable, Origins;
    var origins := Origins(t);
    assert HistoryKey(wr.namespace, wr.head.index)[..32] == wr.namespace;
    assert RequestKey(wr.namespace, wr.request)[..32] == wr.namespace;
    assert wr.namespace[..32] == wr.namespace;
    forall u, k | Chained(u) && Owned(k, origins)
      ensures At(w, u, k) == At(v, u, k)
    {
    }
    forall u, k | InTransfer(u) && At(s, u, k).Some? && At(v, u, k) == At(s, u, k)
      ensures At(w, u, k) == At(v, u, k)
    {
    }
    FenceIsNotStatus(t.manifest);
    assert |CursorKey(t.manifest)| == 33 && |TargetKey(t.manifest)| == 33;
  }

  ghost predicate CursorKept(t: TransferSource, v: Store, w: Store)
  {
    forall k :: |k| == 33 && At(v, Migration, k).Some? ==> At(w, Migration, k) == At(v, Migration, k)
  }

  // A copy of a prefix stays one while its rows and bookkeeping are kept.
  lemma KeptResumable(t: TransferSource, s: Store, v: Store, w: Store)
    requires t.Resumable(s, v) && At(v, Migration, CursorKey(t.manifest)).Some? && Kept(s, v, w) && CursorKept(t, v, w)
    ensures t.Resumable(s, w) && At(w, Migration, CursorKey(t.manifest)) == At(v, Migration, CursorKey(t.manifest))
  {
    hide Coherent, Cursors.Encode, Stands, Copied;
    var c, p :| Staged(s, v, t.manifest, c, p);
    StandsBounds(s, c, p);
    KeptCopied(s, v, w, c.table, p);
    assert Staged(s, w, t.manifest, c, p);
    forall i | 0 <= i < |t.sources|
      ensures At(w, Migration, StageKey(t.sources[i].0)) == Some(t.manifest)
    {
      FenceKeyShort(t.sources[i].0);
    }
  }

  lemma StandsBounds(s: Store, c: Cursors.Cursor, p: nat)
    requires Stands(s, c, p)
    ensures c.table <= 5 && (c.table < 5 ==> p <= |Keys(s, TableAt(c.table))|)
  {
  }

  // The write is an ordinary one to everyone but the origins.
  lemma OthersAdvance(v: Store, w: Store, wr: Write, origins: set<Key>)
    requires Advances(v, w, wr) && wr.namespace !in origins
    ensures Advances(Others(v, origins), Others(w, origins), wr)
    ensures HeadOf(Others(v, origins), wr.namespace) == HeadOf(v, wr.namespace)
    ensures ReceiptOf(Others(v, origins), wr.namespace, wr.request) == ReceiptOf(v, wr.namespace, wr.request)
  {
    hide Others, EncodeHead, EncodeReceipt, DecodeHead, DecodeReceipt;
    assert HistoryKey(wr.namespace, wr.head.index)[..32] == wr.namespace;
    assert RequestKey(wr.namespace, wr.request)[..32] == wr.namespace;
    assert wr.namespace[..32] == wr.namespace;
    forall t, k
      ensures At(Others(v, origins), t, k) == if Chained(t) && Owned(k, origins) then None else At(v, t, k)
      ensures At(Others(w, origins), t, k) == if Chained(t) && Owned(k, origins) then None else At(w, t, k)
    {
      OthersAt(v, origins, t, k);
      OthersAt(w, origins, t, k);
    }
  }

  lemma AdvancedCoherent(v: Store, w: Store, wr: Write)
    requires Advances(v, w, wr) && Coherent(v) && wr.head.index == NextIndex(HeadOf(v, wr.namespace))
    requires ReceiptOf(v, wr.namespace, wr.request).None?
    ensures Coherent(w)
  {
    hide Advances, HeadRows, HistoryRows, RequestRows, Contiguous, EndsAtHead, ReceiptsMatch;
    RowsKept(v, w, wr);
    HistoryKept(v, w, wr);
    ReceiptsKept(v, w, wr);
  }

  // An origin is fenced from the start, so no write accepted meanwhile is one of its own.
  lemma WriterIsOther(t: TransferSource, s: Store, v: Store, wr: Write, plan: Plan)
    requires Underway(t, s, v) && Acceptable(v, wr, plan)
    ensures wr.namespace !in Origins(t)
    ensures wr.head.index == NextIndex(HeadOf(v, wr.namespace)) && ReceiptOf(v, wr.namespace, wr.request).None?
  {
    hide Coherent, Staged, FenceKey, StageKey, AllPuttable, PlanReady, WriteShape, Others, FromSource, PutAll, RequestKey, DecodeHead;
    forall i | 0 <= i < |t.sources|
      ensures t.sources[i].0 != wr.namespace
    {
      assert At(v, Migration, StageKey(t.sources[i].0)) == Some(t.manifest);
    }
  }

  // An application write keeps the invariant.
  lemma NextGood(t: TransferSource, s: Store, v: Store, w: Store)
    requires OfOrigins(s, Origins(t)) && Good(t, s, v) && Next(v, w)
    ensures Good(t, s, w)
  {
    hide Coherent, Acceptable, Applied, Advances, OfOrigins, SameLog, CursorKey, t.Resumable, Others, FromSource, Origins;
    if !Underway(t, s, v) {
      NextCoherent(v, w);
      CursorKeyLong(t.manifest);
      NextBookkeeping(v, w, CursorKey(t.manifest));
    } else if SameRecords(v, w) {
      SameUnderway(t, s, v, w);
    } else {
      var wr, plan :| Acceptable(v, wr, plan) && SameRecords(Applied(v, wr, plan), w);
      AppliedAdvances(v, w, wr, plan);
      WriterIsOther(t, s, v, wr, plan);
      WriteAside(t, s, v, w, wr);
      KeptResumable(t, s, v, w);
      FromKept(s, v, w, Origins(t));
      OthersAdvance(v, w, wr, Origins(t));
      AdvancedCoherent(Others(v, Origins(t)), Others(w, Origins(t)), wr);
    }
  }

  lemma FromKept(s: Store, v: Store, w: Store, origins: set<Key>)
    requires FromSource(s, v, origins) && forall u, k :: Chained(u) && Owned(k, origins) ==> At(w, u, k) == At(v, u, k)
    ensures FromSource(s, w, origins)
  {
    hide Owned;
  }

  lemma SameUnderway(t: TransferSource, s: Store, v: Store, w: Store)
    requires Underway(t, s, v) && SameRecords(v, w)
    ensures Underway(t, s, w)
  {
    hide Coherent, t.Resumable, Others, Owned, Origins;
    KeptResumable(t, s, v, w);
    OthersSame(v, w, Origins(t));
    SameCoherent(Others(v, Origins(t)), Others(w, Origins(t)));
    FromKept(s, v, w, Origins(t));
  }

  lemma CursorKeyLong(manifest: Key)
    ensures |CursorKey(manifest)| == 33
  {
  }

  // A write adds fences to the migration rows and may move the status: nothing a transfer reads.
  lemma NextBookkeeping(v: Store, w: Store, k: seq<byte>)
    requires Next(v, w) && |k| == 33
    ensures At(w, Migration, k) == At(v, Migration, k)
  {
    hide Acceptable, Applied;
    if !SameRecords(v, w) {
      var wr, plan :| Acceptable(v, wr, plan) && SameRecords(Applied(v, wr, plan), w);
      AppliedBookkeeping(v, wr, plan, k);
    }
  }

  lemma AppliedBookkeeping(v: Store, wr: Write, plan: Plan, k: seq<byte>)
    requires Acceptable(v, wr, plan) && |k| == 33
    ensures At(Applied(v, wr, plan), Migration, k) == At(v, Migration, k)
  {
    hide PutAll, AllPuttable, Filled, PlanReady, IsFenced, WriteShape, Generation, HistoryKey, RequestKey, EncodeHead, EncodeReceipt;
    var f := Filled(v, wr);
    FilledKeeps(v, wr, Migration);
    FenceKeyShort(wr.namespace);
    match plan
    case Nothing =>
    case Records(writes) => WriteAllOutside(f, writes, Migration);
    case Migrate(manifest, sources) =>
      var rows := FenceRows(wr.namespace, manifest, sources);
      assert rows[..|sources|] == rows;
      FencesAside(f, wr.namespace, manifest, sources, |sources|, k);
  }

  // ---------------------------------------------------------------- runs

  ghost predicate IsMixedRun(t: TransferSource, s: Store, trace: seq<Store>)
  {
    trace != [] && forall i :: 0 <= i < |trace| - 1 ==> Next(trace[i], trace[i + 1]) || t.Moves(s, trace[i], trace[i + 1])
  }

  lemma {:induction false} RunGood(t: TransferSource, s: Store, trace: seq<Store>, n: nat)
    requires OfOrigins(s, Origins(t)) && IsMixedRun(t, s, trace) && Good(t, s, trace[0]) && n < |trace|
    ensures Good(t, s, trace[n])
  {
    hide OfOrigins, Good, Next, t.Moves;
    if n > 0 {
      RunGood(t, s, trace, n - 1);
      if Next(trace[n - 1], trace[n]) {
        NextGood(t, s, trace[n - 1], trace[n]);
      } else {
        MovesGood(t, s, trace[n - 1], trace[n]);
      }
    }
  }

  // With the whole source copied, the origins' log is the source's.
  lemma WholeOrigins(s: Store, v: Store, origins: set<Key>)
    requires FromSource(s, v, origins) && forall t :: InTransfer(t) ==> Holds(s, v, t)
    ensures forall t, k :: Chained(t) && Owned(k, origins) ==> At(v, t, k) == At(s, t, k)
  {
    hide Owned;
    forall t, k | Chained(t) && Owned(k, origins)
      ensures At(v, t, k) == At(s, t, k)
    {
      assert Holds(s, v, t);
    }
  }

  // Two whole logs of disjoint namespaces, over content both need, are one whole log.
  lemma Joined(s: Store, v: Store, origins: set<Key>)
    requires Coherent(s) && Coherent(Others(v, origins)) && Extends(s, v, Content)
    requires forall t, k :: Chained(t) && Owned(k, origins) ==> At(v, t, k) == At(s, t, k)
    ensures Coherent(v)
  {
    hide Others, Coherent, HeadRows, HistoryRows, RequestRows, Contiguous, EndsAtHead, ReceiptsMatch, SameAt, Owned;
    var o := Others(v, origins);
    forall t, k
      ensures At(v, t, k) == if Chained(t) && Owned(k, origins) then At(s, t, k) else At(o, t, k)
    {
      OthersAt(v, origins, t, k);
    }
    JoinedRows(s, o, v, origins);
    forall ns: Key, i: u64, r: Key
      ensures SameAt(s, o, v, origins, ns, i, r)
    {
      JoinedAt(s, o, v, origins, ns, i, r);
    }
    JoinedHistory(s, o, v, origins);
    JoinedReceipts(s, o, v, origins);
    RowsAndLog(v);
  }

  lemma RowsAndLog(v: Store)
    requires HeadRows(v) && HistoryRows(v) && RequestRows(v) && Contiguous(v) && EndsAtHead(v) && ReceiptsMatch(v)
    ensures Coherent(v)
  {
  }

  function Side(s: Store, o: Store, origins: set<Key>, ns: Key): Store
  {
    if ns in origins then s else o
  }

  // The decoded rows of a namespace are those of its side.
  ghost predicate SameAt(s: Store, o: Store, v: Store, origins: set<Key>, ns: Key, i: u64, r: Key)
  {
    var a := Side(s, o, origins, ns);
    && HeadOf(v, ns) == HeadOf(a, ns) && HistoryOf(v, ns, i) == HistoryOf(a, ns, i) && ReceiptOf(v, ns, r) == ReceiptOf(a, ns, r)
    && IsReceipt(v, ns, r, i) == IsReceipt(a, ns, r, i)
  }

  lemma JoinedAt(s: Store, o: Store, v: Store, origins: set<Key>, ns: Key, i: u64, r: Key)
    requires forall t, k :: At(v, t, k) == if Chained(t) && Owned(k, origins) then At(s, t, k) else At(o, t, k)
    ensures SameAt(s, o, v, origins, ns, i, r)
  {
    hide DecodeHead, DecodeReceipt;
    assert ns[..32] == ns && HistoryKey(ns, i)[..32] == ns && RequestKey(ns, r)[..32] == ns;
  }

  lemma JoinedRows(s: Store, o: Store, v: Store, origins: set<Key>)
    requires Coherent(s) && Coherent(o) && Extends(s, v, Content)
    requires forall t, k :: At(v, t, k) == if Chained(t) && Owned(k, origins) then At(s, t, k) else At(o, t, k)
    ensures HeadRows(v) && HistoryRows(v) && RequestRows(v)
  {
    hide DecodeHead, DecodeReceipt, Contiguous, EndsAtHead, ReceiptsMatch, Owned;
    forall k | At(v, History, k).Some?
      ensures |k| == 40 && |At(v, History, k).value| == 32 && At(v, Content, At(v, History, k).value).Some?
    {
      if Owned(k, origins) {
        assert At(s, Content, At(s, History, k).value).Some?;
      } else {
        assert At(v, Content, At(o, History, k).value) == At(o, Content, At(o, History, k).value);
      }
    }
  }

  lemma JoinedHistory(s: Store, o: Store, v: Store, origins: set<Key>)
    requires Coherent(s) && Coherent(o)
    requires forall ns: Key, i: u64, r: Key :: SameAt(s, o, v, origins, ns, i, r)
    ensures Contiguous(v) && EndsAtHead(v)
  {
    hide HeadOf, HistoryOf, ReceiptOf, IsReceipt, HeadRows, HistoryRows, RequestRows, ReceiptsMatch;
    forall ns: Key, i: u64
      ensures HistoryOf(v, ns, i).Some? <==> HeadOf(v, ns).Some? && i <= HeadOf(v, ns).value.index
    {
      assert SameAt(s, o, v, origins, ns, i, ns);
    }
    forall ns: Key | HeadOf(v, ns).Some?
      ensures HistoryOf(v, ns, HeadOf(v, ns).value.index) == Some(HeadOf(v, ns).value.commit)
    {
      assert SameAt(s, o, v, origins, ns, HeadOf(v, ns).value.index, ns);
    }
  }

  lemma JoinedReceipts(s: Store, o: Store, v: Store, origins: set<Key>)
    requires Coherent(s) && Coherent(o)
    requires forall ns: Key, i: u64, r: Key :: SameAt(s, o, v, origins, ns, i, r)
    ensures ReceiptsMatch(v)
  {
    hide HeadOf, HistoryOf, ReceiptOf, IsReceipt, HeadRows, HistoryRows, RequestRows, Contiguous, EndsAtHead;
    forall ns: Key, r: Key | ReceiptOf(v, ns, r).Some?
      ensures HistoryOf(v, ns, ReceiptOf(v, ns, r).value.1.index) == Some(ReceiptOf(v, ns, r).value.1.commit)
    {
      assert SameAt(s, o, v, origins, ns, ReceiptOf(v, ns, r).value.1.index, r);
    }
    forall ns: Key, p: Key, q: Key, i: u64 | IsReceipt(v, ns, p, i) && IsReceipt(v, ns, q, i)
      ensures p == q
    {
      assert SameAt(s, o, v, origins, ns, i, p) && SameAt(s, o, v, origins, ns, i, q);
    }
    forall ns: Key, i: u64 | HistoryOf(v, ns, i).Some?
      ensures exists r: Key :: IsReceipt(v, ns, r, i)
    {
      assert SameAt(s, o, v, origins, ns, i, ns);
      var r: Key :| IsReceipt(Side(s, o, origins, ns), ns, r, i);
      assert SameAt(s, o, v, origins, ns, i, r);
    }
  }

  // The main result. The origins are the source's heads. Start from a coherent target and let
  // ordinary writes and stretches of the transfer follow each other in any order; wherever the
  // cursor says that the transfer is complete, the target holds the whole source and its log is
  // coherent.
  lemma MixedRunCompletes(t: TransferSource, s: Store, trace: seq<Store>, n: nat, c: Cursors.Cursor, p: nat)
    requires IsMixedRun(t, s, trace) && n < |trace| && forall ns: Key :: HeadOf(s, ns).Some? ==> ns in Origins(t)
    requires Coherent(trace[0]) && At(trace[0], Migration, CursorKey(t.manifest)).None?
    requires Staged(s, trace[n], t.manifest, c, p) && c.table == 5
    ensures Coherent(trace[n]) && forall u :: InTransfer(u) ==> Holds(s, trace[n], u)
    ensures forall i :: 0 <= i < |t.sources| ==> HeadOf(trace[n], t.sources[i].0) == HeadOf(s, t.sources[i].0)
  {
    hide OfOrigins, Next, t.Moves, Coherent, Stands, Copied, Others, Owned, Holds, FromSource, Cursors.Encode;
    var v := trace[n];
    CompleteCopies(s, v, t.manifest, c, p);
    CoherentOwned(s, Origins(t));
    RunGood(t, s, trace, n);
    assert Underway(t, s, v);
    WholeOrigins(s, v, Origins(t));
    HoldsExtends(s, v);
    Joined(s, v, Origins(t));
    forall i | 0 <= i < |t.sources|
      ensures HeadOf(v, t.sources[i].0) == HeadOf(s, t.sources[i].0)
    {
      var ns := t.sources[i].0;
      assert ns in Origins(t) && ns[..32] == ns;
      OwnedBy(ns, ns, Origins(t));
      assert At(v, Heads, ns) == At(s, Heads, ns);
    }
  }

  lemma HoldsExtends(s: Store, v: Store)
    requires Holds(s, v, Content)
    ensures Extends(s, v, Content)
  {
  }
}
