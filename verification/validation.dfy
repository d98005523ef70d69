// The disk-backed chain validator: three passes over the tables in pages, a temporary reverse
// index of receipts, and its removal.
module Validation {
  import opened Wrappers
  import opened Bytes
  import opened Integers
  import opened Sorting
  import opened Stores
  import opened Scans
  import opened Databases
  import opened Applications
  import opened Histories
  import opened Links

  const TEMPORARY: seq<byte> := ['r' as int]

  // The temporary row that says which request has a receipt for a history position.
  function ReceiptKey(ns: Key, i: u64): (k: seq<byte>)
    ensures |k| == 41
  {
    TEMPORARY + ns + BigEndian(i)
  }

  lemma ReceiptKeyInjective(a: Key, i: u64, b: Key, j: u64)
    requires ReceiptKey(a, i) == ReceiptKey(b, j)
    ensures a == b && i == j
  {
    assert a == ReceiptKey(a, i)[1..33] && b == ReceiptKey(b, j)[1..33];
    assert BigEndian(i) == ReceiptKey(a, i)[33..] && BigEndian(j) == ReceiptKey(b, j)[33..];
    BigEndianInjective(i, j);
  }

  predicate IsTemporary(t: Table, k: seq<byte>)
  {
    t == Migration && TEMPORARY <= k
  }

  // The same rows, temporary ones and commit markers aside.
  ghost predicate SameChain(s: Store, v: Store)
  {
    forall t, k :: t != Metadata && !IsTemporary(t, k) ==> At(v, t, k) == At(s, t, k)
  }

  ghost predicate NoTemporaries(s: Store)
  {
    forall k :: TEMPORARY <= k ==> At(s, Migration, k).None?
  }

  // The conditions under which the validator meets no storage error: no fault, and pages that can
  // hold every row of the chain and a temporary row.
  ghost predicate Faultless(outcomes: nat -> Outcome)
  {
    forall n :: outcomes(n) == Clean
  }

  predicate PageShape(limits: Limits)
  {
    0 < limits.maxEntries <= 4096 && 41 + 32 <= limits.maxBytes <= MAX_TRANSACTION_BYTES
  }

  // Every row of a table fits a page.
  ghost predicate TableFits(s: Store, t: Table, limits: Limits)
  {
    forall k :: At(s, t, k).Some? ==> RowFits(k, At(s, t, k).value, limits)
  }

  ghost predicate Fitting(s: Store, limits: Limits)
  {
    && (forall t, k :: (t == Heads || t == Requests || t == History) && At(s, t, k).Some? ==> RowFits(k, At(s, t, k).value, limits))
    && (forall k :: At(s, Content, k).Some? ==> |At(s, Content, k).value| <= MAX_BYTES_VALUE)
  }

  ghost predicate Smooth(db: Database, s: Store, limits: Limits, outcomes: nat -> Outcome)
    reads db
  {
    db.failure.None? && Faultless(outcomes) && PageShape(limits) && Fitting(s, limits)
  }

  // ---------------------------------------------------------------- pages of a table

  ghost predicate IsSlice(s: Store, t: Table, p: nat, page: seq<RawEntry>)
  {
    && p + |page| <= |Keys(s, t)| && (page == [] <==> p == |Keys(s, t)|)
    && (forall i :: 0 <= i < |page| ==> page[i].0 == Keys(s, t)[p + i] && At(s, t, page[i].0) == Some(page[i].1))
  }

  // The cursor stands after the first p keys.
  ghost predicate CursorAt(s: Store, t: Table, after: Option<seq<byte>>, p: nat)
  {
    && p <= |Keys(s, t)| && KeysAfter(RowsIn(s, t), after, []) == Keys(s, t)[p..]
    && (after.Some? ==> p > 0 && after.value == Keys(s, t)[p - 1])
  }

  lemma SliceOf(s: Store, t: Table, limits: Limits, p: nat, page: seq<RawEntry>)
    requires p <= |Keys(s, t)| && IsPage(RowsIn(s, t), Keys(s, t)[p..], limits, page) && limits.maxEntries > 0
    ensures IsSlice(s, t, p, page) && |page| <= limits.maxEntries
    ensures page != [] ==> CursorAt(s, t, Some(page[|page| - 1].0), p + |page|)
  {
    hide RowFits, Keys, RowsIn;
    var keys := Keys(s, t);
    PageMoves(RowsIn(s, t), keys[p..], limits, page);
    forall i | 0 <= i < |page|
      ensures page[i].0 == keys[p + i] && At(s, t, page[i].0) == Some(page[i].1)
    {
      assert IsRow(RowsIn(s, t), keys[p..][i], limits, page[i]);
      RowsInAt(s, t, page[i].0);
    }
    if page != [] {
      KeysAreAll(s, t);
      NextKeys(RowsIn(s, t), None, [], p + |page|);
    }
  }

  lemma KeysAreAll(s: Store, t: Table)
    ensures Keys(s, t) == KeysAfter(RowsIn(s, t), None, [])
  {
  }

  // The next page of a table: a run of its keys from the cursor on.
  method NextPage(db: Database, t: Table, limits: Limits, after: Option<seq<byte>>, ghost s: Store, ghost p: nat)
    returns (r: Result<seq<RawEntry>, Error>)
    requires db.Valid() && RowsIn(db.store, t) == RowsIn(s, t) && CursorAt(s, t, after, p)
    ensures r.Ok? ==> IsSlice(s, t, p, r.value) && |r.value| <= limits.maxEntries <= 4096
    ensures r.Ok? && r.value != [] ==> CursorAt(s, t, Some(r.value[|r.value| - 1].0), p + |r.value|)
    ensures db.failure.None? && PageShape(limits) && Fitting(s, limits) && (t == Heads || t == Requests || t == History) ==> r.Ok?
    ensures db.failure.None? && PageShape(limits) && TableFits(s, t, limits) ==> r.Ok?
  {
    hide KeysAfter, RowsIn, RowFits, IsPage, Keys, Wanted, IsSlice, Fitting, TableFits;
    if Fitting(s, limits) && (t == Heads || t == Requests || t == History) {
      FittingTable(s, t, limits);
    }
    if TableFits(s, t, limits) {
      AllFit(s, t, limits, after, p);
    }
    var page := ScanRows(db, t, after, [], limits);
    if page.Err? {
      return Err(FromStorage(page.error));
    }
    SliceOf(s, t, limits, p, page.value);
    r := Ok(page.value);
  }

  lemma FittingTable(s: Store, t: Table, limits: Limits)
    requires Fitting(s, limits) && (t == Heads || t == Requests || t == History)
    ensures TableFits(s, t, limits)
  {
  }

  lemma AllFit(s: Store, t: Table, limits: Limits, after: Option<seq<byte>>, p: nat)
    requires TableFits(s, t, limits) && CursorAt(s, t, after, p)
    ensures forall k :: k in RowsIn(s, t) ==> RowFits(k, RowsIn(s, t)[k], limits)
    ensures after.Some? ==> |after.value| <= MAX_KEY_BYTES
  {
    hide Keys, KeysAfter, RowsIn;
    forall k | k in RowsIn(s, t)
      ensures RowFits(k, RowsIn(s, t)[k], limits)
    {
      RowsInAt(s, t, k);
      assert At(s, t, k) == Some(RowsIn(s, t)[k]);
    }
    if after.Some? {
      KeysFacts(s, t);
      assert Keys(s, t)[p - 1] in Keys(s, t);
      assert RowFits(after.value, At(s, t, after.value).value, limits);
    }
  }

  lemma StartOf(s: Store, t: Table)
    ensures CursorAt(s, t, None, 0)
  {
    assert Keys(s, t)[0..] == Keys(s, t);
  }

  // ---------------------------------------------------------------- the checks of one row

  lemma SameChainRows(s: Store, v: Store)
    requires SameChain(s, v)
    ensures forall t :: t != Metadata && t != Migration ==> RowsIn(v, t) == RowsIn(s, t)
    ensures forall ns: Key, h: Head :: LinkOk(v, ns, h) == LinkOk(s, ns, h)
  {
    forall t | t != Metadata && t != Migration
      ensures RowsIn(v, t) == RowsIn(s, t)
    {
      forall k
        ensures k in RowsIn(v, t) <==> k in RowsIn(s, t)
        ensures k in RowsIn(s, t) ==> RowsIn(v, t)[k] == RowsIn(s, t)[k]
      {
        RowsInAt(s, t, k);
        RowsInAt(v, t, k);
        assert At(v, t, k) == At(s, t, k);
      }
    }
    forall ns: Key, h: Head
      ensures LinkOk(v, ns, h) == LinkOk(s, ns, h)
    {
      hide HistoryKey, DecodeHead;
      assert HistoryOf(v, ns, h.index) == HistoryOf(s, ns, h.index) && HeadOf(v, ns) == HeadOf(s, ns);
    }
  }

  // The history entry, its content and the head, read back.
  method CheckLink(db: Database, ns: Key, h: Head, limits: Limits) returns (r: Result<(), Error>)
    requires db.Valid()
    ensures r.Ok? ==> LinkOk(db.store, ns, h)
    ensures db.failure.None? && Fitting(db.store, limits) && LinkOk(db.store, ns, h) ==> r.Ok?
  {
    hide HistoryKey;
    var entry := ReadRow(db, History, HistoryKey(ns, h.index), 32);
    if entry.Err? {
      return Err(FromStorage(entry.error));
    }
    if entry.value != Some(h.commit) {
      return Err(Corrupted);
    }
    var content := ReadRow(db, Content, h.commit, MAX_BYTES_VALUE);
    if content.Err? {
      return Err(FromStorage(content.error));
    }
    if content.value.None? {
      return Err(Corrupted);
    }
    var selected := ReadRow(db, Heads, ns, 40);
    if selected.Err? {
      return Err(FromStorage(selected.error));
    }
    if selected.value.None? || DecodeHead(selected.value.value).None? {
      return Err(Corrupted);
    }
    if h.index > DecodeHead(selected.value.value).value.index {
      return Err(Corrupted);
    }
    r := Ok(());
  }

  // ---------------------------------------------------------------- heads

  method ValidateHeads(db: Database, limits: Limits, ghost s: Store, ghost outcomes: nat -> Outcome) returns (r: Result<(), Error>)
    requires db.Valid() && SameChain(s, db.store)
    ensures r.Ok? ==> forall k :: At(s, Heads, k).Some? ==> HeadOk(s, k)
    ensures Smooth(db, s, limits, outcomes) && (forall k :: At(s, Heads, k).Some? ==> HeadOk(s, k)) ==> r.Ok?
  {
    hide KeysAfter, RowsIn, LinkOk, DecodeHead, Keys, CursorAt, Faultless, PageShape, RowFits;
    SameChainRows(s, db.store);
    StartOf(s, Heads);
    KeysFacts(s, Heads);
    ghost var p := 0;
    var after: Option<seq<byte>> := None;
    while true
      invariant CursorAt(s, Heads, after, p) && p <= |Keys(s, Heads)|
      invariant forall i :: 0 <= i < p ==> HeadOk(s, Keys(s, Heads)[i])
      decreases |Keys(s, Heads)| - p
    {
      var page := NextPage(db, Heads, limits, after, s, p);
      if page.Err? {
        return Err(page.error);
      }
      if page.value == [] {
        return Ok(());
      }
      var i := 0;
      while i < |page.value|
        invariant 0 <= i <= |page.value|
        invariant forall j :: 0 <= j < p + i ==> HeadOk(s, Keys(s, Heads)[j])
      {
        var (k, v) := page.value[i];
        assert k == Keys(s, Heads)[p + i];
        var checked := CheckHeadRow(db, k, v, limits, s);
        if checked.Err? {
          assert k in Keys(s, Heads);
          return checked;
        }
        i := i + 1;
      }
      after := Some(page.value[|page.value| - 1].0);
      p := p + |page.value|;
    }
  }

  method CheckHeadRow(db: Database, k: seq<byte>, v: seq<byte>, limits: Limits, ghost s: Store) returns (r: Result<(), Error>)
    requires db.Valid() && SameChain(s, db.store) && At(s, Heads, k) == Some(v)
    ensures r.Ok? ==> HeadOk(s, k)
    ensures db.failure.None? && Fitting(s, limits) && HeadOk(s, k) ==> r.Ok?
  {
    hide LinkOk, DecodeHead;
    SameChainRows(s, db.store);
    if |k| != 32 || DecodeHead(v).None? {
      return Err(Corrupted);
    }
    r := CheckLink(db, k, DecodeHead(v).value, limits);
  }

  // ---------------------------------------------------------------- requests and the reverse index

  predicate IsRequest(s: Store, k: seq<byte>)
  {
    |k| == 64 && RequestAt(s, k).Some?
  }

  function PositionOf(s: Store, k: seq<byte>): seq<byte>
    requires IsRequest(s, k)
  {
    ReceiptKey(k[..32], RequestAt(s, k).value.1.index)
  }

  // Every temporary row names a request of s at that request's position.
  ghost predicate Genuine(v: Store, s: Store)
  {
    forall k :: TEMPORARY <= k && At(v, Migration, k).Some? ==> Backed(s, k, At(v, Migration, k).value)
  }

  ghost predicate Backed(s: Store, k: seq<byte>, request: seq<byte>)
  {
    exists x :: IsRequest(s, x) && PositionOf(s, x) == k && x[32..] == request
  }

  // The reverse index holds the first n requests, and nothing that is no request.
  ghost predicate Indexed(v: Store, s: Store, keys: seq<seq<byte>>, n: nat)
    requires n <= |keys|
  {
    && (forall j :: 0 <= j < n ==> IsRequest(s, keys[j]) && At(v, Migration, PositionOf(s, keys[j])) == Some(keys[j][32..]))
    && Genuine(v, s)
  }

  // Requests by position are all different, so far.
  ghost predicate Distinct(s: Store, keys: seq<seq<byte>>, n: nat)
    requires n <= |keys|
  {
    forall i, j :: 0 <= i < j < n ==> !SamePosition(s, keys[i], keys[j])
  }

  lemma PositionsEqual(s: Store, k: seq<byte>, l: seq<byte>)
    requires IsRequest(s, k) && IsRequest(s, l)
    ensures SamePosition(s, k, l) <==> PositionOf(s, k) == PositionOf(s, l)
  {
    hide ReceiptKey, RequestAt;
    if PositionOf(s, k) == PositionOf(s, l) {
      ReceiptKeyInjective(k[..32], RequestAt(s, k).value.1.index, l[..32], RequestAt(s, l).value.1.index);
    }
  }

  // Indexing one more request, when its position is free or its own.
  lemma IndexNext(v: Store, s: Store, keys: seq<seq<byte>>, n: nat)
    requires n < |keys| && Indexed(v, s, keys, n) && Distinct(s, keys, n) && IsRequest(s, keys[n]) && Ascends(ByteOrder(), keys)
    requires At(v, Migration, PositionOf(s, keys[n])) == None || At(v, Migration, PositionOf(s, keys[n])) == Some(keys[n][32..])
    ensures Indexed(v[Slot(Migration, PositionOf(s, keys[n])) := keys[n][32..]], s, keys, n + 1) && Distinct(s, keys, n + 1)
  {
    hide ReceiptKey, PositionOf, SamePosition, Lt, RequestAt, Backed;
    var x := PositionOf(s, keys[n]);
    var w := v[Slot(Migration, x) := keys[n][32..]];
    forall j | 0 <= j < n
      ensures At(w, Migration, PositionOf(s, keys[j])) == Some(keys[j][32..]) && !SamePosition(s, keys[j], keys[n])
    {
      PositionsEqual(s, keys[j], keys[n]);
      assert ByteOrder()(keys[j], keys[n]);
      SameRequest(keys[j], keys[n]);
      assert At(v, Migration, PositionOf(s, keys[j])) == Some(keys[j][32..]);
      SamePrefix(s, keys[j], keys[n]);
    }
    BackedBy(s, keys[n]);
    assert Genuine(w, s) by {
      forall k | TEMPORARY <= k && At(w, Migration, k).Some?
        ensures Backed(s, k, At(w, Migration, k).value)
      {
        assert k != x ==> At(v, Migration, k) == At(w, Migration, k);
      }
    }
  }

  lemma BackedBy(s: Store, k: seq<byte>)
    requires IsRequest(s, k)
    ensures Backed(s, PositionOf(s, k), k[32..])
  {
  }

  lemma SamePrefix(s: Store, k: seq<byte>, l: seq<byte>)
    requires IsRequest(s, k) && IsRequest(s, l)
    ensures SamePosition(s, k, l) ==> k[..32] == l[..32]
  {
  }

  // Two requests of one namespace and one request id are one key.
  lemma SameRequest(k: seq<byte>, l: seq<byte>)
    requires |k| == 64 && |l| == 64 && Lt(k, l)
    ensures k[..32] != l[..32] || k[32..] != l[32..]
  {
    assert k == k[..32] + k[32..] && l == l[..32] + l[32..];
    LtTotal(k, l);
  }

  // A position taken by another request means that two requests share it.
  lemma IndexTaken(v: Store, s: Store, keys: seq<seq<byte>>, n: nat)
    requires n < |keys| && Genuine(v, s) && IsRequest(s, keys[n]) && keys == Keys(s, Requests)
    requires At(v, Migration, PositionOf(s, keys[n])).Some?
    ensures At(v, Migration, PositionOf(s, keys[n])) != Some(keys[n][32..]) ==> !OneReceiptEach(s, keys)
    ensures |At(v, Migration, PositionOf(s, keys[n])).value| == 32
  {
    hide Keys, ReceiptKey, RequestAt;
    var at := PositionOf(s, keys[n]);
    StartsTemporary(keys[n][..32], RequestAt(s, keys[n]).value.1.index);
    assert Backed(s, at, At(v, Migration, at).value);
    var x :| IsRequest(s, x) && PositionOf(s, x) == at && x[32..] == At(v, Migration, at).value;
    KeysFacts(s, Requests);
    RequestPresent(s, x);
    var j :| 0 <= j < |keys| && keys[j] == x;
    PositionsEqual(s, x, keys[n]);
    PositionsEqual(s, keys[n], x);
  }

  lemma RequestPresent(s: Store, x: seq<byte>)
    requires IsRequest(s, x)
    ensures At(s, Requests, x).Some?
  {
  }

  // A transaction of at most n small writes.
  ghost predicate Light(c: Changes, n: nat)
  {
    WellSized(c) && |c| <= n && TotalBytes(c) <= 128 * n
  }

  lemma LightPut(c: Changes, n: nat, x: Slot, v: Option<seq<byte>>)
    requires Light(c, n) && n < 4096 && |x.key| <= 64 && (v.Some? ==> |v.value| <= 64)
    ensures Light(c[x := v], n + 1) && Bounded(c[x := v])
  {
    TotalPut(c, x, v);
  }

  lemma IndexedSame(v: Store, w: Store, s: Store, keys: seq<seq<byte>>, n: nat)
    requires SameRecords(v, w) && n <= |keys| && Indexed(v, s, keys, n)
    ensures Indexed(w, s, keys, n)
  {
    hide IsRequest, PositionOf, Backed;
    assert forall k :: At(w, Migration, k) == At(v, Migration, k);
  }

  lemma PutTemporary(s: Store, v: Store, k: seq<byte>, b: seq<byte>)
    requires SameChain(s, v) && TEMPORARY <= k
    ensures SameChain(s, v[Slot(Migration, k) := b]) && SameChain(s, v - {Slot(Migration, k)})
  {
  }

  lemma ChainThenRecords(s: Store, v: Store, w: Store)
    requires SameChain(s, v) && SameRecords(v, w)
    ensures SameChain(s, w)
  {
  }

  // One page of requests goes into the reverse index in one transaction.
  method IndexPage(db: Database, page: seq<RawEntry>, outcome: Outcome, ghost s: Store, ghost p: nat) returns (r: Result<(), Error>)
    requires db.Valid() && SameChain(s, db.store) && IsSlice(s, Requests, p, page) && |page| <= 4096
    requires forall i :: 0 <= i < |page| ==> IsRequest(s, page[i].0)
    requires Indexed(db.store, s, Keys(s, Requests), p) && Distinct(s, Keys(s, Requests), p)
    modifies db
    ensures db.Valid() && SameChain(s, db.store) && Genuine(db.store, s)
    ensures r.Ok? ==> Indexed(db.store, s, Keys(s, Requests), p + |page|) && Distinct(s, Keys(s, Requests), p + |page|)
    ensures old(db.failure).None? && outcome == Clean && OneReceiptEach(s, Keys(s, Requests)) ==> r.Ok? && db.failure.None?
  {
    hide Keys, Indexed, Distinct, Bounded, Patched, Light, SameChain, OneReceiptEach, Committed, SameRecords, Genuine;
    IndexedGenuine(db.store, s, Keys(s, Requests), p);
    var begun := db.Begin();
    if begun.Err? {
      return Err(FromStorage(begun.error));
    }
    var tx := begun.value;
    var staged := StagePage(tx, page, s, p);
    if staged.Err? {
      return staged;
    }
    ghost var w := Committed(db.hash, db.store, tx.changes);
    CommittedRecords(db.hash, db.store, tx.changes);
    ChainThenRecords(s, tx.View(), w);
    IndexedSame(tx.View(), w, s, Keys(s, Requests), p + |page|);
    IndexedGenuine(w, s, Keys(s, Requests), p + |page|);
    var done := db.Finish(tx, outcome);
    r := if done.Ok? then Ok(()) else Err(FromStorage(done.error));
  }

  method StagePage(tx: Transaction, page: seq<RawEntry>, ghost s: Store, ghost p: nat) returns (r: Result<(), Error>)
    requires tx.Valid() && tx.changes == map[] && SameChain(s, tx.View()) && IsSlice(s, Requests, p, page) && |page| <= 4096
    requires forall i :: 0 <= i < |page| ==> IsRequest(s, page[i].0)
    requires Indexed(tx.View(), s, Keys(s, Requests), p) && Distinct(s, Keys(s, Requests), p)
    modifies tx
    ensures tx.Valid() && SameChain(s, tx.View())
    ensures r.Ok? ==> Indexed(tx.View(), s, Keys(s, Requests), p + |page|) && Distinct(s, Keys(s, Requests), p + |page|)
    ensures OneReceiptEach(s, Keys(s, Requests)) ==> r.Ok?
  {
    hide Keys, Indexed, Distinct, Bounded, Patched, Light, SameChain, OneReceiptEach, IsRequest;
    NothingStaged();
    var i := 0;
    while i < |page|
      invariant 0 <= i <= |page| && tx.Valid() && SameChain(s, tx.View()) && Light(tx.changes, i)
      invariant Indexed(tx.View(), s, Keys(s, Requests), p + i) && Distinct(s, Keys(s, Requests), p + i)
    {
      r := StageRequest(tx, page[i].0, page[i].1, s, p + i, i);
      if r.Err? {
        return;
      }
      i := i + 1;
    }
    r := Ok(());
  }

  // Name the request under its position, unless another request is named there.
  method StageRequest(tx: Transaction, k: seq<byte>, v: seq<byte>, ghost s: Store, ghost n: nat, ghost staged: nat) returns (r: Result<(), Error>)
    requires tx.Valid() && SameChain(s, tx.View()) && Light(tx.changes, staged) && staged < 4096
    requires n < |Keys(s, Requests)| && k == Keys(s, Requests)[n] && At(s, Requests, k) == Some(v) && IsRequest(s, k)
    requires Indexed(tx.View(), s, Keys(s, Requests), n) && Distinct(s, Keys(s, Requests), n)
    modifies tx
    ensures tx.Valid() && SameChain(s, tx.View())
    ensures r.Ok? ==> Indexed(tx.View(), s, Keys(s, Requests), n + 1) && Distinct(s, Keys(s, Requests), n + 1) && Light(tx.changes, staged + 1)
    ensures OneReceiptEach(s, Keys(s, Requests)) ==> r.Ok?
  {
    hide Keys, Indexed, Distinct, Bounded, Patched, Light, SameChain, OneReceiptEach, DecodeReceipt, ReceiptKey, Genuine, Lt;
    ghost var keys := Keys(s, Requests);
    KeysFacts(s, Requests);
    var x := ReceiptKey(k[..32], DecodeReceipt(v).value.1.index);
    assert x == PositionOf(s, k);
    StartsTemporary(k[..32], DecodeReceipt(v).value.1.index);
    IndexedGenuine(tx.View(), s, keys, n);
    if At(tx.View(), Migration, x).Some? {
      IndexTaken(tx.View(), s, keys, n);
    }
    var seen := tx.Get(Migration, x, 32);
    if seen.Err? {
      return Err(Limited);
    }
    if seen.value.Some? && seen.value.value != k[32..] {
      return Err(Corrupted);
    }
    IndexNext(tx.View(), s, keys, n);
    PutTemporary(s, tx.View(), x, k[32..]);
    LightPut(tx.changes, staged, Slot(Migration, x), Some(k[32..]));
    var put := tx.Put(Migration, x, k[32..]);
    r := if put.Ok? then Ok(()) else Err(Limited);
  }

  lemma IndexedGenuine(v: Store, s: Store, keys: seq<seq<byte>>, n: nat)
    requires n <= |keys| && Indexed(v, s, keys, n)
    ensures Genuine(v, s)
  {
  }

  lemma StartsTemporary(ns: Key, i: u64)
    ensures TEMPORARY <= ReceiptKey(ns, i)
  {
  }

  lemma NothingStaged()
    ensures Light(map[], 0)
  {
  }

  ghost predicate RequestsOk(s: Store)
  {
    (forall k :: At(s, Requests, k).Some? ==> RequestOk(s, k)) && OneReceiptEach(s, Keys(s, Requests))
  }

  method ValidateRequests(db: Database, limits: Limits, ghost s: Store, outcomes: nat -> Outcome, first: nat)
    returns (r: Result<(), Error>, next: nat)
    requires db.Valid() && SameChain(s, db.store) && Genuine(db.store, s)
    modifies db
    ensures db.Valid() && SameChain(s, db.store) && Genuine(db.store, s)
    ensures r.Ok? ==>
      && RequestsOk(s) && Indexed(db.store, s, Keys(s, Requests), |Keys(s, Requests)|)
    ensures old(Smooth(db, s, limits, outcomes)) && RequestsOk(s) ==> r.Ok? && db.failure.None?
  {
    hide KeysAfter, RowsIn, LinkOk, DecodeReceipt, Keys, CursorAt, PageShape, RowFits, Indexed, Distinct, SameChain, OneReceiptEach, Fitting, Genuine;
    ghost var keys := Keys(s, Requests);
    ghost var smooth := Smooth(db, s, limits, outcomes);
    StartOf(s, Requests);
    KeysFacts(s, Requests);
    NothingIndexed(db.store, s, keys);
    next := first;
    ghost var p := 0;
    var after: Option<seq<byte>> := None;
    while true
      invariant db.Valid() && SameChain(s, db.store) && Genuine(db.store, s) && CursorAt(s, Requests, after, p) && p <= |keys|
      invariant Indexed(db.store, s, keys, p) && Distinct(s, keys, p)
      invariant forall i :: 0 <= i < p ==> RequestOk(s, keys[i])
      invariant smooth && OneReceiptEach(s, keys) ==> db.failure.None?
      decreases |keys| - p
    {
      SameChainRows(s, db.store);
      var page := NextPage(db, Requests, limits, after, s, p);
      if page.Err? {
        return Err(page.error), next;
      }
      if page.value == [] {
        AllDistinct(s, keys);
        return Ok(()), next;
      }
      var shaped := CheckShapes(page.value, s, p);
      if !shaped {
        return Err(Corrupted), next;
      }
      r := IndexPage(db, page.value, outcomes(next), s, p);
      next := next + 1;
      if r.Err? {
        return;
      }
      r := CheckRequests(db, page.value, limits, s, p);
      if r.Err? {
        return;
      }
      forall i | p <= i < p + |page.value|
        ensures RequestOk(s, keys[i])
      {
        assert page.value[i - p].0 == keys[i];
      }
      after := Some(page.value[|page.value| - 1].0);
      p := p + |page.value|;
    }
  }

  lemma NothingIndexed(v: Store, s: Store, keys: seq<seq<byte>>)
    requires Genuine(v, s)
    ensures Indexed(v, s, keys, 0) && Distinct(s, keys, 0)
  {
  }

  lemma AllDistinct(s: Store, keys: seq<seq<byte>>)
    requires Distinct(s, keys, |keys|)
    ensures OneReceiptEach(s, keys)
  {
  }

  // validate_record on every request of the page.
  method CheckShapes(page: seq<RawEntry>, ghost s: Store, ghost p: nat) returns (ok: bool)
    requires IsSlice(s, Requests, p, page)
    ensures ok <==> forall i :: 0 <= i < |page| ==> IsRequest(s, page[i].0)
  {
    hide Keys, DecodeReceipt;
    var i := 0;
    while i < |page|
      invariant 0 <= i <= |page| && forall j :: 0 <= j < i ==> IsRequest(s, page[j].0)
    {
      if |page[i].0| != 64 || DecodeReceipt(page[i].1).None? {
        assert !IsRequest(s, page[i].0);
        return false;
      }
      i := i + 1;
    }
    ok := true;
  }

  method CheckRequests(db: Database, page: seq<RawEntry>, limits: Limits, ghost s: Store, ghost p: nat) returns (r: Result<(), Error>)
    requires db.Valid() && SameChain(s, db.store) && IsSlice(s, Requests, p, page)
    requires forall i :: 0 <= i < |page| ==> IsRequest(s, page[i].0)
    ensures r.Ok? ==> forall i :: 0 <= i < |page| ==> RequestOk(s, page[i].0)
    ensures db.failure.None? && Fitting(s, limits) && (forall k :: At(s, Requests, k).Some? ==> RequestOk(s, k)) ==> r.Ok?
  {
    hide Keys, LinkOk, DecodeReceipt, SameChain, Fitting;
    SameChainRows(s, db.store);
    FittingSame(s, db.store, limits);
    var i := 0;
    while i < |page|
      invariant 0 <= i <= |page|
      invariant forall j :: 0 <= j < i ==> RequestOk(s, page[j].0)
    {
      var (k, v) := page[i];
      assert k == Keys(s, Requests)[p + i] && IsRequest(s, k);
      r := CheckLink(db, k[..32], DecodeReceipt(v).value.1, limits);
      if r.Err? {
        return;
      }
      i := i + 1;
    }
    r := Ok(());
  }

  lemma FittingSame(s: Store, v: Store, limits: Limits)
    requires SameChain(s, v)
    ensures Fitting(v, limits) == Fitting(s, limits)
  {
    hide RowFits;
  }

  // ---------------------------------------------------------------- history

  lemma PositionReceipted(v: Store, s: Store, ns: Key, i: u64)
    requires Indexed(v, s, Keys(s, Requests), |Keys(s, Requests)|)
    ensures At(v, Migration, ReceiptKey(ns, i)).Some? <==> Receipted(s, ns, i)
    ensures At(v, Migration, ReceiptKey(ns, i)).Some? ==> |At(v, Migration, ReceiptKey(ns, i)).value| == 32
  {
    hide Keys, DecodeReceipt, ReceiptKey, RequestKey;
    var keys, x := Keys(s, Requests), ReceiptKey(ns, i);
    KeysFacts(s, Requests);
    StartsTemporary(ns, i);
    if At(v, Migration, x).Some? {
      assert Backed(s, x, At(v, Migration, x).value);
      var k :| IsRequest(s, k) && PositionOf(s, k) == x && k[32..] == At(v, Migration, x).value;
      ReceiptKeyInjective(k[..32], RequestAt(s, k).value.1.index, ns, i);
      PartsOfRequest(k);
      assert IsReceipt(s, ns, k[32..], i);
    }
    if Receipted(s, ns, i) {
      var r: Key :| IsReceipt(s, ns, r, i);
      RequestKeyParts(ns, r);
      var k := RequestKey(ns, r);
      assert k in keys;
      var j :| 0 <= j < |keys| && keys[j] == k;
      assert At(v, Migration, PositionOf(s, keys[j])).Some?;
    }
  }

  lemma PartsOfRequest(k: seq<byte>)
    requires |k| == 64
    ensures k == RequestKey(k[..32], k[32..])
  {
  }

  ghost predicate HistoriesOk(s: Store)
  {
    (forall k :: At(s, History, k).Some? ==> HistoryOk(s, k)) && InSequence(Keys(s, History))
  }

  // The namespace and index of the row scanned before position p.
  ghost predicate Previous(s: Store, p: nat, previous: Option<(Key, u64)>)
    requires p <= |Keys(s, History)|
  {
    if p == 0 then previous == None
    else
      var k := Keys(s, History)[p - 1];
      |k| == 40 && previous == Some((k[..32], IndexOf(k)))
  }

  method ValidateHistory(db: Database, limits: Limits, ghost s: Store, ghost outcomes: nat -> Outcome) returns (r: Result<(), Error>)
    requires db.Valid() && SameChain(s, db.store) && Indexed(db.store, s, Keys(s, Requests), |Keys(s, Requests)|)
    ensures r.Ok? ==> HistoriesOk(s)
    ensures Smooth(db, s, limits, outcomes) && HistoriesOk(s) ==> r.Ok?
  {
    hide KeysAfter, RowsIn, LinkOk, Keys, CursorAt, PageShape, RowFits, Indexed, SameChain, Fitting, HistoryOk, InPlace;
    ghost var keys := Keys(s, History);
    SameChainRows(s, db.store);
    StartOf(s, History);
    KeysFacts(s, History);
    ghost var p := 0;
    var after: Option<seq<byte>> := None;
    var previous: Option<(Key, u64)> := None;
    while true
      invariant CursorAt(s, History, after, p) && p <= |keys| && Previous(s, p, previous)
      invariant forall i :: 0 <= i < p ==> HistoryOk(s, keys[i]) && InPlace(keys, i)
      decreases |keys| - p
    {
      var page := NextPage(db, History, limits, after, s, p);
      if page.Err? {
        return Err(page.error);
      }
      if page.value == [] {
        return Ok(());
      }
      var i := 0;
      while i < |page.value|
        invariant 0 <= i <= |page.value| && Previous(s, p + i, previous)
        invariant forall j :: 0 <= j < p + i ==> HistoryOk(s, keys[j]) && InPlace(keys, j)
      {
        assert page.value[i].0 == keys[p + i] && keys[p + i] in keys;
        r, previous := CheckEntry(db, page.value[i].0, page.value[i].1, limits, previous, s, p + i);
        if r.Err? {
          return;
        }
        i := i + 1;
      }
      after := Some(page.value[|page.value| - 1].0);
      p := p + |page.value|;
    }
  }

  // Shape, sequence, link and receipt of one history row.
  method CheckEntry(db: Database, k: seq<byte>, v: seq<byte>, limits: Limits, previous: Option<(Key, u64)>, ghost s: Store, ghost j: nat)
    returns (r: Result<(), Error>, now: Option<(Key, u64)>)
    requires db.Valid() && SameChain(s, db.store) && Indexed(db.store, s, Keys(s, Requests), |Keys(s, Requests)|)
    requires j < |Keys(s, History)| && k == Keys(s, History)[j] && At(s, History, k) == Some(v) && Previous(s, j, previous)
    ensures r.Ok? ==> HistoryOk(s, k) && InPlace(Keys(s, History), j) && Previous(s, j + 1, now)
    ensures db.failure.None? && Fitting(s, limits) && HistoryOk(s, k) && InPlace(Keys(s, History), j) ==> r.Ok?
  {
    hide LinkOk, Keys, RowFits, Indexed, SameChain, Fitting, DecodeBE, ReceiptKey, Receipted;
    now := previous;
    if |k| != 40 || |v| != 32 {
      return Err(Corrupted), now;
    }
    var ns, index := k[..32], IndexOf(k);
    var expected: int := if previous.Some? && previous.value.0 == ns then previous.value.1 + 1 else 0;
    if index != expected {
      return Err(Corrupted), now;
    }
    now := Some((ns, index));
    SameChainRows(s, db.store);
    FittingSame(s, db.store, limits);
    r := CheckLink(db, ns, Head(index, v), limits);
    if r.Err? {
      return;
    }
    PositionReceipted(db.store, s, ns, index);
    var receipt := ReadRow(db, Migration, ReceiptKey(ns, index), 32);
    if receipt.Err? {
      return Err(FromStorage(receipt.error)), now;
    }
    r := if receipt.value.Some? then Ok(()) else Err(Corrupted);
  }

  // ---------------------------------------------------------------- removing the reverse index

  ghost function TemporaryKeys(s: Store): set<seq<byte>>
  {
    set k | k in RowsIn(s, Migration) && TEMPORARY <= k
  }

  // Temporary rows a page can always hold.
  ghost predicate SmallTemporaries(s: Store)
  {
    forall k :: TEMPORARY <= k && At(s, Migration, k).Some? ==> |k| == 41 && |At(s, Migration, k).value| == 32
  }

  lemma GenuineSmall(v: Store, s: Store)
    requires Genuine(v, s)
    ensures SmallTemporaries(v)
  {
    hide ReceiptKey, RequestAt;
    forall k | TEMPORARY <= k && At(v, Migration, k).Some?
      ensures |k| == 41 && |At(v, Migration, k).value| == 32
    {
      var x :| IsRequest(s, x) && PositionOf(s, x) == k && x[32..] == At(v, Migration, k).value;
    }
  }

  // The temporary rows of a page.
  ghost predicate TemporaryPage(s: Store, page: seq<RawEntry>)
  {
    |page| <= 4096 && forall i :: 0 <= i < |page| ==> TEMPORARY <= page[i].0 && |page[i].0| <= 64 && page[i].0 in RowsIn(s, Migration)
  }

  // s without the rows of the page.
  ghost predicate Without(s: Store, v: Store, page: seq<RawEntry>)
  {
    && SameOn(s, v, Content) && (forall k :: At(v, Migration, k).Some? ==> At(v, Migration, k) == At(s, Migration, k))
    && (forall i :: 0 <= i < |page| ==> At(v, Migration, page[i].0).None?)
    && SameChain(s, v)
  }

  method ScanTemporaries(db: Database, limits: Limits) returns (r: Result<seq<RawEntry>, Error>)
    requires db.Valid()
    ensures r.Ok? ==> TemporaryPage(db.store, r.value) && (r.value == [] <==> NoTemporaries(db.store))
    ensures db.failure.None? && PageShape(limits) && SmallTemporaries(db.store) ==> r.Ok?
  {
    hide RowFits, KeysAfter, RowsIn;
    ghost var rows := RowsIn(db.store, Migration);
    forall k
      ensures k in rows <==> At(db.store, Migration, k).Some?
      ensures k in rows ==> rows[k] == At(db.store, Migration, k).value
    {
      RowsInAt(db.store, Migration, k);
    }
    if PageShape(limits) && SmallTemporaries(db.store) {
      SmallFit(rows, limits);
    }
    var page := ScanRows(db, Migration, None, TEMPORARY, limits);
    if page.Err? {
      return Err(FromStorage(page.error));
    }
    TemporaryFacts(rows, limits, page.value);
    r := Ok(page.value);
  }

  lemma SmallFit(rows: Rows, limits: Limits)
    requires PageShape(limits) && forall k :: k in rows && TEMPORARY <= k ==> |k| == 41 && |rows[k]| == 32
    ensures forall k :: k in rows && Wanted(k, None, TEMPORARY) ==> RowFits(k, rows[k], limits)
  {
  }

  lemma TemporaryFacts(rows: Rows, limits: Limits, page: seq<RawEntry>)
    requires IsPage(rows, KeysAfter(rows, None, TEMPORARY), limits, page) && 0 < limits.maxEntries <= 4096
    ensures |page| <= 4096 && forall i :: 0 <= i < |page| ==> TEMPORARY <= page[i].0 && |page[i].0| <= 64 && page[i].0 in rows
    ensures page == [] <==> forall k :: k in rows ==> !(TEMPORARY <= k)
  {
    hide KeysAfter;
    var keys := KeysAfter(rows, None, TEMPORARY);
    KeysAfterFacts(rows, None, TEMPORARY);
    PageMoves(rows, keys, limits, page);
    forall i | 0 <= i < |page|
      ensures TEMPORARY <= page[i].0 && |page[i].0| <= 64 && page[i].0 in rows
    {
      assert keys[i] in keys && IsRow(rows, keys[i], limits, page[i]);
    }
    if keys != [] {
      assert keys[0] in keys;
    } else {
      assert forall k :: k in rows && Wanted(k, None, TEMPORARY) ==> k in keys;
      forall k | k in rows
        ensures !(TEMPORARY <= k)
      {
        assert Wanted(k, None, TEMPORARY) <==> TEMPORARY <= k;
      }
    }
  }

  method RemovePage(db: Database, page: seq<RawEntry>, outcome: Outcome) returns (r: Result<(), Error>)
    requires db.Valid() && TemporaryPage(db.store, page) && page != []
    modifies db
    ensures db.Valid() && SameChain(old(db.store), db.store)
    ensures db.store == old(db.store) || Without(old(db.store), db.store, page)
    ensures r.Ok? ==> db.failure.None? && Without(old(db.store), db.store, page)
    ensures old(db.failure).None? && outcome == Clean ==> r.Ok?
  {
    hide Bounded, Patched, Committed, SameChain, Without, TemporaryPage;
    ghost var s := db.store;
    ChainItself(s);
    var begun := db.Begin();
    if begun.Err? {
      return Err(FromStorage(begun.error));
    }
    var tx := begun.value;
    var staged := StageRemovals(tx, page, s);
    if staged.Err? {
      return Err(Limited);
    }
    ghost var w := Committed(db.hash, s, tx.changes);
    CommittedRecords(db.hash, s, tx.changes);
    WithoutThenRecords(s, tx.View(), w, page);
    var done := db.Finish(tx, outcome);
    r := if done.Ok? then Ok(()) else Err(FromStorage(done.error));
  }

  method StageRemovals(tx: Transaction, page: seq<RawEntry>, ghost s: Store) returns (r: Result<(), StorageError>)
    requires tx.Valid() && tx.changes == map[] && tx.View() == s && TemporaryPage(s, page) && page != []
    modifies tx
    ensures tx.Valid() && r.Ok? && tx.changes != map[] && Without(s, tx.View(), page)
  {
    hide Bounded, Patched, Light, Without;
    NothingStaged();
    NothingWithout(s);
    var i := 0;
    while i < |page|
      invariant 0 <= i <= |page| && tx.Valid() && Light(tx.changes, i) && Without(s, tx.View(), page[..i])
      invariant i > 0 ==> tx.changes != map[]
    {
      LightPut(tx.changes, i, Slot(Migration, page[i].0), None);
      WithoutNext(s, tx.View(), page, i);
      r := tx.Remove(Migration, page[i].0);
      i := i + 1;
    }
    assert page[..i] == page;
    r := Ok(());
  }

  lemma ChainItself(s: Store)
    ensures SameChain(s, s)
  {
  }

  lemma NothingWithout(s: Store)
    ensures Without(s, s, [])
  {
  }

  lemma WithoutNext(s: Store, v: Store, page: seq<RawEntry>, i: nat)
    requires i < |page| && Without(s, v, page[..i]) && TEMPORARY <= page[i].0
    ensures Without(s, v - {Slot(Migration, page[i].0)}, page[..i + 1])
  {
    hide SameChain;
    PutTemporary(s, v, page[i].0, []);
    var w := v - {Slot(Migration, page[i].0)};
    var removed := page[..i + 1];
    forall j | 0 <= j < |removed|
      ensures At(w, Migration, removed[j].0).None?
    {
      if j < i {
        assert removed[j] == page[..i][j];
      }
    }
    assert SameOn(s, w, Content) by {
      assert forall k :: At(w, Content, k) == At(v, Content, k);
    }
  }

  lemma WithoutThenRecords(s: Store, v: Store, w: Store, page: seq<RawEntry>)
    requires Without(s, v, page) && SameRecords(v, w)
    ensures Without(s, w, page) && SameChain(s, w)
  {
  }

  method RemoveTemporaries(db: Database, limits: Limits, ghost s: Store, outcomes: nat -> Outcome, first: nat) returns (r: Result<(), Error>)
    requires db.Valid() && SameChain(s, db.store) && Genuine(db.store, s)
    modifies db
    ensures db.Valid() && SameChain(s, db.store) && Genuine(db.store, s)
    ensures r.Ok? ==> NoTemporaries(db.store)
    ensures old(db.failure).None? && Faultless(outcomes) && PageShape(limits) ==> r.Ok?
  {
    hide SameChain, NoTemporaries, Without, TemporaryPage, SmallTemporaries, RowsIn, Genuine;
    ghost var smooth := db.failure.None? && Faultless(outcomes) && PageShape(limits);
    var next := first;
    while true
      invariant db.Valid() && SameChain(s, db.store) && Genuine(db.store, s)
      invariant smooth ==> db.failure.None?
      decreases TemporaryKeys(db.store)
    {
      GenuineSmall(db.store, s);
      var page := ScanTemporaries(db, limits);
      if page.Err? {
        return Err(page.error);
      }
      if page.value == [] {
        return Ok(());
      }
      ghost var before := db.store;
      r := RemovePage(db, page.value, outcomes(next));
      ChainTrans(s, before, db.store);
      FewerGenuine(before, db.store, s, page.value);
      if r.Err? {
        return;
      }
      FewerTemporaries(before, db.store, page.value);
      next := next + 1;
    }
  }

  lemma ChainTrans(s: Store, v: Store, w: Store)
    requires SameChain(s, v) && SameChain(v, w)
    ensures SameChain(s, w)
  {
  }

  lemma FewerTemporaries(s: Store, v: Store, page: seq<RawEntry>)
    requires Without(s, v, page) && TemporaryPage(s, page) && page != []
    ensures TemporaryKeys(v) < TemporaryKeys(s)
  {
    hide SameChain, RowsIn;
    forall k | k in TemporaryKeys(v)
      ensures k in TemporaryKeys(s)
    {
      RowsInAt(v, Migration, k);
      RowsInAt(s, Migration, k);
      assert At(v, Migration, k) == At(s, Migration, k);
    }
    RowsInAt(v, Migration, page[0].0);
    assert page[0].0 in TemporaryKeys(s) && page[0].0 !in TemporaryKeys(v);
  }

  lemma FewerGenuine(v: Store, w: Store, s: Store, page: seq<RawEntry>)
    requires Genuine(v, s) && (w == v || Without(v, w, page))
    ensures Genuine(w, s)
  {
    hide SameChain, Backed;
  }

  // ---------------------------------------------------------------- the validator

  // validate_links accepts exactly the coherent chains, for every page size, and leaves the chain
  // as it was. It needs no clean start: temporary rows of an earlier attempt that broke off are
  // all genuine, and genuine rows do no harm. An acceptance is sound whatever faults occur.
  method ValidateLinks(db: Database, limits: Limits, outcomes: nat -> Outcome, ghost s: Store) returns (r: Result<(), Error>)
    requires db.Valid() && SameChain(s, db.store) && Genuine(db.store, s)
    modifies db
    ensures db.Valid() && SameChain(s, db.store) && Genuine(db.store, s)
    ensures r.Ok? ==> Coherent(s) && Chained(s) && NoTemporaries(db.store)
    ensures old(Smooth(db, s, limits, outcomes)) ==> (r.Ok? <==> Coherent(s)) && (r.Ok? <==> Chained(s))
  {
    hide Chained, SameChain, NoTemporaries, Coherent, RequestsOk, HistoriesOk, Indexed, Fitting, PageShape, Genuine;
    AcceptedParts(s);
    ChainedExactly(s);
    r := ValidateHeads(db, limits, s, outcomes);
    if r.Err? {
      return;
    }
    var next;
    r, next := ValidateRequests(db, limits, s, outcomes, 0);
    if r.Err? {
      return;
    }
    r := ValidateHistory(db, limits, s, outcomes);
    if r.Err? {
      return;
    }
    r := RemoveTemporaries(db, limits, s, outcomes, next);
  }

  lemma AcceptedParts(s: Store)
    ensures Coherent(s) <==> (forall k :: At(s, Heads, k).Some? ==> HeadOk(s, k)) && RequestsOk(s) && HistoriesOk(s)
  {
    hide Coherent, HeadOk, RequestOk, HistoryOk, InSequence, OneReceiptEach;
    AcceptedIsCoherent(s);
  }

  // A store without temporary rows is a clean start.
  lemma CleanStart(s: Store)
    requires NoTemporaries(s)
    ensures Genuine(s, s) && SameChain(s, s)
  {
  }
}
