// The restartable, paged copy of a sealed source into a shared target.
module Transfers {
  import opened Wrappers
  import opened Bytes
  import opened Integers
  import opened Sorting
  import opened Stores
  import opened Scans
  import opened Databases
  import opened Applications
  import opened Histories
  import opened Links
  import opened Validation
  import Cursors

  // The tables of a transfer, in the order they are copied.
  function TableAt(t: nat): Table
    requires t < 5
  {
    if t == 0 then Content else if t == 1 then Claims else if t == 2 then Requests else if t == 3 then History else Heads
  }

  predicate InTransfer(t: Table)
  {
    t == Content || t == Claims || t == Requests || t == History || t == Heads
  }

  const PAGE := Limits(512, MAX_TRANSACTION_BYTES - 4096)
  const LINK_PAGE := Limits(4096, MAX_TRANSACTION_BYTES - 1024)

  // ---------------------------------------------------------------- what a cursor means

  ghost function RowsBefore(s: Store, t: nat): nat
    requires t <= 5
  {
    if t == 0 then 0 else RowsBefore(s, t - 1) + |Keys(s, TableAt(t - 1))|
  }

  ghost function SizeUpTo(s: Store, t: Table, n: nat): nat
    requires n <= |Keys(s, t)|
  {
    if n == 0 then 0
    else
      var k := Keys(s, t)[n - 1];
      SizeUpTo(s, t, n - 1) + |k| + (match At(s, t, k) case None => 0 case Some(v) => |v|)
  }

  ghost function BytesBefore(s: Store, t: nat): nat
    requires t <= 5
  {
    if t == 0 then 0 else BytesBefore(s, t - 1) + SizeUpTo(s, TableAt(t - 1), |Keys(s, TableAt(t - 1))|)
  }

  // The cursor stands after p rows of its table and every row of the tables before, and counts
  // exactly those.
  ghost predicate Stands(s: Store, c: Cursors.Cursor, p: nat)
  {
    && Cursors.Valid(c)
    && (c.table == 5 ==> p == 0 && c.after == None && c.rows == RowsBefore(s, 5) && c.bytes == BytesBefore(s, 5))
    && (c.table < 5 ==>
          var keys := Keys(s, TableAt(c.table));
          && p <= |keys| && c.after == (if p == 0 then None else Some(keys[p - 1]))
          && c.rows == RowsBefore(s, c.table) + p && c.bytes == BytesBefore(s, c.table) + SizeUpTo(s, TableAt(c.table), p))
  }

  // Every row of table t of s is in v, byte for byte.
  ghost predicate Holds(s: Store, v: Store, t: Table)
  {
    forall k :: At(s, t, k).Some? ==> At(v, t, k) == At(s, t, k)
  }

  ghost predicate HoldsUpTo(s: Store, v: Store, t: Table, p: nat)
    requires p <= |Keys(s, t)|
  {
    forall i :: 0 <= i < p ==> At(v, t, Keys(s, t)[i]) == At(s, t, Keys(s, t)[i])
  }

  ghost predicate Copied(s: Store, v: Store, t: nat, p: nat)
    requires t <= 5 && (t < 5 ==> p <= |Keys(s, TableAt(t))|)
  {
    && (forall u :: 0 <= u < t ==> Holds(s, v, TableAt(u)))
    && (t < 5 ==> HoldsUpTo(s, v, TableAt(t), p))
  }

  // The target as a transfer leaves it between any two transactions.
  ghost predicate Staged(s: Store, v: Store, manifest: Key, c: Cursors.Cursor, p: nat)
  {
    && At(v, Migration, CursorKey(manifest)) == Some(Cursors.Encode(c)) && Stands(s, c, p)
    && Copied(s, v, c.table, p) && (c.table == 5 ==> Coherent(s))
  }

  // Nothing the target holds in the five tables is overwritten.
  ghost predicate Grows(v: Store, w: Store)
  {
    forall t, k :: InTransfer(t) && At(v, t, k).Some? ==> At(w, t, k) == At(v, t, k)
  }

  // Outside the bookkeeping, w differs from v only by rows of the source.
  ghost predicate OnlyAdds(s: Store, v: Store, w: Store)
  {
    forall t, k :: t != Migration && t != Metadata && At(w, t, k) != At(v, t, k) ==> At(w, t, k) == At(s, t, k)
  }

  // Every row that is new has the shape of its table, and new content passed the check.
  ghost predicate Checked(v: Store, w: Store, contentOk: (seq<byte>, seq<byte>) -> bool)
  {
    forall t, k :: InTransfer(t) && At(v, t, k).None? && At(w, t, k).Some? ==> RowChecked(t, k, At(w, t, k).value, contentOk)
  }

  ghost predicate RowChecked(t: Table, k: seq<byte>, b: seq<byte>, contentOk: (seq<byte>, seq<byte>) -> bool)
  {
    && (t == Content ==> |k| == 32 && contentOk(k, b)) && (t == Claims ==> |k| == 32 && |b| == 32)
    && (t == Requests ==> |k| == 64 && |b| == 72) && (t == History ==> |k| == 40 && |b| == 32) && (t == Heads ==> |k| == 32 && |b| == 40)
  }

  // Every row of the five tables that changed is one of the page's.
  ghost predicate FromPage(v: Store, w: Store, t: Table, page: seq<RawEntry>)
  {
    forall u, k :: InTransfer(u) && At(w, u, k) != At(v, u, k) ==> u == t && InPage(page, k, At(w, u, k))
  }

  ghost predicate InPage(page: seq<RawEntry>, k: seq<byte>, b: Option<seq<byte>>)
  {
    exists i :: 0 <= i < |page| && page[i].0 == k && b == Some(page[i].1)
  }

  lemma PageChecked(v: Store, w: Store, t: Table, page: seq<RawEntry>, contentOk: (seq<byte>, seq<byte>) -> bool)
    requires FromPage(v, w, t, page)
    requires forall i :: 0 <= i < |page| ==> RecordShape(t, page[i].0, page[i].1) && (t == Content ==> contentOk(page[i].0, page[i].1))
    ensures Checked(v, w, contentOk)
  {
    forall u, k | InTransfer(u) && At(v, u, k).None? && At(w, u, k).Some?
      ensures RowChecked(u, k, At(w, u, k).value, contentOk)
    {
      assert InPage(page, k, At(w, u, k));
    }
  }

  lemma CheckedTrans(u: Store, v: Store, w: Store, contentOk: (seq<byte>, seq<byte>) -> bool)
    requires Checked(u, v, contentOk) && Checked(v, w, contentOk) && Grows(v, w)
    ensures Checked(u, w, contentOk)
  {
    hide RowChecked;
  }

  lemma BookkeptChecked(v: Store, w: Store, contentOk: (seq<byte>, seq<byte>) -> bool)
    requires Bookkept(v, w) || SameRecords(v, w)
    ensures Checked(v, w, contentOk)
  {
  }

  // They differ in the bookkeeping alone.
  ghost predicate Bookkept(v: Store, w: Store)
  {
    forall t, k :: t != Migration && t != Metadata ==> At(w, t, k) == At(v, t, k)
  }

  lemma BookkeptAdds(s: Store, v: Store, w: Store)
    requires Bookkept(v, w)
    ensures Grows(v, w) && OnlyAdds(s, v, w)
  {
  }

  // The reader generation of v, raised to neurons if it was below.
  ghost predicate Raised(v: Store, w: Store)
  {
    var before := At(v, Migration, Ascii("status"));
    At(w, Migration, Ascii("status")) == if before == None || before == Some(Ascii("complete")) then Some(Ascii("neuron-v1")) else before
  }

  lemma PromotedRaised(v: Store)
    ensures Raised(v, Promoted(v))
  {
    hide Ascii;
  }

  lemma RaisedAside(v: Store, w: Store, k: seq<byte>, b: seq<byte>)
    requires Raised(v, w) && |k| == 33
    ensures Raised(v, w[Slot(Migration, k) := b])
  {
    assert |Ascii("status")| == 6;
  }

  lemma RaisedSame(v: Store, u: Store, w: Store)
    requires Raised(v, u) && SameRecords(u, w)
    ensures Raised(v, w)
  {
  }

  lemma BookkeptNone(v: Store)
    ensures Bookkept(v, v)
  {
  }

  lemma BookkeptSame(v: Store, u: Store, w: Store)
    requires Bookkept(v, u) && SameRecords(u, w)
    ensures Bookkept(v, w)
  {
  }

  // Of the migration rows, at most the cursor moves.
  ghost predicate CursorMoves(v: Store, w: Store, manifest: Key)
  {
    forall k :: k != CursorKey(manifest) ==> At(w, Migration, k) == At(v, Migration, k)
  }

  // A complete transfer holds the whole source, whose chain is coherent.
  lemma CompleteCopies(s: Store, v: Store, manifest: Key, c: Cursors.Cursor, p: nat)
    requires Staged(s, v, manifest, c, p) && c.table == 5
    ensures Coherent(s) && forall t :: InTransfer(t) ==> Holds(s, v, t)
  {
    hide Coherent, Holds, Cursors.Encode, Stands;
    forall t | InTransfer(t)
      ensures Holds(s, v, t)
    {
      assert TableAt(0) == Content && TableAt(1) == Claims && TableAt(2) == Requests && TableAt(3) == History && TableAt(4) == Heads;
    }
  }

  lemma WhenComplete(s: Store, v: Store, manifest: Key, c: Cursors.Cursor, p: nat)
    requires Staged(s, v, manifest, c, p)
    ensures c.table == 5 ==> Coherent(s) && forall t, k :: InTransfer(t) && At(s, t, k).Some? ==> At(v, t, k) == At(s, t, k)
  {
    hide Staged, Coherent;
    if c.table == 5 {
      CompleteCopies(s, v, manifest, c, p);
      forall t, k | InTransfer(t) && At(s, t, k).Some?
        ensures At(v, t, k) == At(s, t, k)
      {
        assert Holds(s, v, t);
      }
    }
  }

  // The rows of the source that v holds, w holds.
  ghost predicate Kept(s: Store, v: Store, w: Store)
  {
    forall u, k :: InTransfer(u) && At(s, u, k).Some? && At(v, u, k) == At(s, u, k) ==> At(w, u, k) == At(v, u, k)
  }

  lemma GrowsKeeps(s: Store, v: Store, w: Store)
    requires Grows(v, w)
    ensures Kept(s, v, w)
  {
  }

  // Copied rows stay copied while they are kept.
  lemma KeptCopied(s: Store, v: Store, w: Store, t: nat, p: nat)
    requires t <= 5 && (t < 5 ==> p <= |Keys(s, TableAt(t))|) && Copied(s, v, t, p) && Kept(s, v, w)
    ensures Copied(s, w, t, p)
  {
    hide Keys;
    forall u | 0 <= u < t
      ensures Holds(s, w, TableAt(u))
    {
      assert Holds(s, v, TableAt(u));
    }
    if t < 5 {
      KeysFacts(s, TableAt(t));
      var keys := Keys(s, TableAt(t));
      forall i | 0 <= i < p
        ensures At(w, TableAt(t), keys[i]) == At(s, TableAt(t), keys[i])
      {
        assert keys[i] in keys && At(v, TableAt(t), keys[i]) == At(s, TableAt(t), keys[i]);
      }
    }
  }

  lemma SameGrows(v: Store, w: Store)
    requires SameRecords(v, w)
    ensures Grows(v, w)
  {
  }

  lemma GrowsTrans(u: Store, v: Store, w: Store)
    requires Grows(u, v) && Grows(v, w)
    ensures Grows(u, w)
  {
  }

  lemma SameStaged(s: Store, v: Store, w: Store, manifest: Key, c: Cursors.Cursor, p: nat)
    requires SameRecords(v, w) && Staged(s, v, manifest, c, p)
    ensures Staged(s, w, manifest, c, p)
  {
    hide Coherent, Cursors.Encode, Keys, Copied, Grows, Kept;
    SameGrows(v, w);
    GrowsKeeps(s, v, w);
    KeptCopied(s, v, w, c.table, p);
  }

  // ---------------------------------------------------------------- one page

  // The page after the cursor, checked and counted.
  ghost predicate Advanced(s: Store, c: Cursors.Cursor, p: nat, page: seq<RawEntry>, next: Cursors.Cursor)
    requires c.table < 5
  {
    if page == [] then next == c.(table := c.table + 1, after := None)
    else
      && next.table == c.table && next.after == Some(page[|page| - 1].0)
      && next.rows == c.rows + |page| && next.bytes == c.bytes + Used(page)
  }

  // Where the cursor stands after a page: further on, or at the start of the next table.
  lemma NextStands(s: Store, c: Cursors.Cursor, p: nat, page: seq<RawEntry>, next: Cursors.Cursor)
    requires c.table < 5 && Stands(s, c, p) && IsSlice(s, TableAt(c.table), p, page) && Advanced(s, c, p, page, next)
    requires forall i :: 0 <= i < |page| ==> 0 < |page[i].0| <= MAX_KEY_BYTES
    ensures Stands(s, next, if page == [] then 0 else p + |page|)
  {
    hide Keys;
    var t := TableAt(c.table);
    SizeAdds(s, t, p, page);
  }

  lemma {:induction false} SizeAdds(s: Store, t: Table, p: nat, page: seq<RawEntry>)
    requires p + |page| <= |Keys(s, t)|
    requires forall i :: 0 <= i < |page| ==> page[i].0 == Keys(s, t)[p + i] && At(s, t, page[i].0) == Some(page[i].1)
    ensures SizeUpTo(s, t, p + |page|) == SizeUpTo(s, t, p) + Used(page)
  {
    hide Keys;
    if page != [] {
      var n := |page| - 1;
      SizeAdds(s, t, p, page[..n]);
      assert page[n].0 == Keys(s, t)[p + n];
    }
  }

  // The shape every row of a transferred table must have.
  predicate RecordShape(t: Table, k: seq<byte>, v: seq<byte>)
  {
    match t
    case Content => |k| == 32
    case Claims => |k| == 32 && |v| == 32
    case Requests => |k| == 64 && DecodeReceipt(v).Some?
    case History => |k| == 40 && |v| == 32
    case Heads => |k| == 32 && DecodeHead(v).Some?
    case _ => false
  }

  // Validate the rows of a page and add them to the totals.
  method CountPage(c: Cursors.Cursor, t: Table, page: seq<RawEntry>, contentOk: (seq<byte>, seq<byte>) -> bool)
    returns (r: Result<Cursors.Cursor, Error>)
    requires page != []
    ensures r.Ok? ==>
      && r.value.table == c.table && r.value.after == Some(page[|page| - 1].0)
      && r.value.rows == c.rows + |page| && r.value.bytes == c.bytes + Used(page)
      && forall i :: 0 <= i < |page| ==> RecordShape(t, page[i].0, page[i].1) && (t == Content ==> contentOk(page[i].0, page[i].1))
  {
    var rows: nat, bytes: nat := c.rows, c.bytes;
    var i := 0;
    while i < |page|
      invariant 0 <= i <= |page| && rows == c.rows + i && bytes == c.bytes + Used(page[..i])
      invariant rows < U64_BOUND && bytes < U64_BOUND
      invariant forall j :: 0 <= j < i ==> RecordShape(t, page[j].0, page[j].1) && (t == Content ==> contentOk(page[j].0, page[j].1))
    {
      assert page[..i + 1][..i] == page[..i];
      var (k, v) := page[i];
      if !RecordShape(t, k, v) || (t == Content && !contentOk(k, v)) {
        return Err(Corrupted);
      }
      if rows + 1 >= U64_BOUND || bytes + |k| + |v| >= U64_BOUND {
        return Err(Limited);
      }
      rows, bytes := rows + 1, bytes + |k| + |v|;
      i := i + 1;
    }
    assert page[..i] == page;
    r := Ok(Cursors.Cursor(c.table, Some(page[|page| - 1].0), rows, bytes));
  }

  // The rows of a page, put into a target that held everything before them.
  lemma PageCopied(s: Store, v: Store, t: nat, p: nat, page: seq<RawEntry>)
    requires t < 5 && p <= |Keys(s, TableAt(t))| && Copied(s, v, t, p) && IsSlice(s, TableAt(t), p, page)
    requires AllPuttable(v, TableAt(t), page)
    ensures Grows(v, PutAll(v, TableAt(t), page))
    ensures page != [] ==> Copied(s, PutAll(v, TableAt(t), page), t, p + |page|)
    ensures page == [] ==> Copied(s, PutAll(v, TableAt(t), page), t + 1, 0)
  {
    hide Keys, PutAll, AllPuttable;
    var w := PutAll(v, TableAt(t), page);
    PutGrows(v, TableAt(t), page);
    GrowsKeeps(s, v, w);
    KeptCopied(s, v, w, t, p);
    PutAllExtends(v, TableAt(t), page);
    var keys := Keys(s, TableAt(t));
    KeysFacts(s, TableAt(t));
    if page != [] {
      forall i | 0 <= i < p + |page|
        ensures At(w, TableAt(t), keys[i]) == At(s, TableAt(t), keys[i])
      {
        if i >= p {
          assert page[i - p].0 == keys[i];
        }
      }
    } else {
      forall k | At(s, TableAt(t), k).Some?
        ensures At(w, TableAt(t), k) == At(s, TableAt(t), k)
      {
        assert k in keys;
      }
      assert Holds(s, w, TableAt(t));
    }
  }

  lemma PutGrows(v: Store, t: Table, page: seq<RawEntry>)
    requires AllPuttable(v, t, page)
    ensures Grows(v, PutAll(v, t, page))
  {
    hide PutAll, AllPuttable;
    PutAllExtends(v, t, page);
    forall u, k | InTransfer(u) && At(v, u, k).Some?
      ensures At(PutAll(v, t, page), u, k) == At(v, u, k)
    {
      if u != t {
        PutAllElsewhere(v, t, page, u);
      }
    }
  }

  lemma PageMoves(s: Store, v: Store, u: Store, w: Store, manifest: Key, t: Table, page: seq<RawEntry>, b: seq<byte>)
    requires InTransfer(t) && u == PutAll(v, t, page)[Slot(Migration, CursorKey(manifest)) := b] && SameRecords(u, w)
    requires forall i :: 0 <= i < |page| ==> At(s, t, page[i].0) == Some(page[i].1)
    ensures CursorMoves(v, w, manifest) && OnlyAdds(s, v, w) && FromPage(v, w, t, page)
  {
    hide PutAll, InPage;
    PutAllElsewhere(v, t, page, Migration);
    forall r, k | InTransfer(r) && At(w, r, k) != At(v, r, k)
      ensures r == t && InPage(page, k, At(w, r, k))
    {
      assert At(w, r, k) == At(u, r, k) == At(PutAll(v, t, page), r, k);
      if r == t {
        PutAllFrom(v, t, page, k);
        FoundInPage(PutAll(v, t, page), t, page, k);
      } else {
        PutAllElsewhere(v, t, page, r);
      }
    }
    forall r, k | r != Migration && r != Metadata && At(w, r, k) != At(v, r, k)
      ensures At(w, r, k) == At(s, r, k)
    {
      assert At(w, r, k) == At(u, r, k) == At(PutAll(v, t, page), r, k);
      if r == t {
        PutAllFrom(v, t, page, k);
      } else {
        PutAllElsewhere(v, t, page, r);
      }
    }
  }

  // A row that putting rows has changed is one of them.
  lemma {:induction false} PutAllFrom(v: Store, t: Table, page: seq<RawEntry>, k: seq<byte>)
    ensures At(PutAll(v, t, page), t, k) == At(v, t, k)
            || exists i :: 0 <= i < |page| && page[i].0 == k && At(PutAll(v, t, page), t, k) == Some(page[i].1)
  {
    if page != [] {
      var n := |page| - 1;
      PutAllFrom(v, t, page[..n], k);
      if page[n].0 == k {
        assert At(PutAll(v, t, page), t, k) == Some(page[n].1);
      } else if At(PutAll(v, t, page[..n]), t, k) != At(v, t, k) {
        var i :| 0 <= i < n && page[..n][i].0 == k && At(PutAll(v, t, page[..n]), t, k) == Some(page[..n][i].1);
        assert page[i] == page[..n][i];
      }
    }
  }

  lemma FoundInPage(w: Store, t: Table, page: seq<RawEntry>, k: seq<byte>)
    ensures (exists i :: 0 <= i < |page| && page[i].0 == k && At(w, t, k) == Some(page[i].1)) ==> InPage(page, k, At(w, t, k))
  {
  }

  lemma Unmoved(s: Store, v: Store)
    ensures SameRecords(v, v) && Grows(v, v) && OnlyAdds(s, v, v) && forall t, page :: FromPage(v, v, t, page)
  {
  }

  lemma AddsTrans(s: Store, u: Store, v: Store, w: Store)
    requires OnlyAdds(s, u, v) && OnlyAdds(s, v, w)
    ensures OnlyAdds(s, u, w)
  {
  }

  // One page and the new cursor, in one transaction, unless the cursor has moved meanwhile.
  method CopyPage(target: Database, manifest: Key, c: Cursors.Cursor, page: seq<RawEntry>, next: Cursors.Cursor, outcome: Outcome,
                  ghost s: Store, ghost p: nat) returns (r: Result<(), Error>)
    requires target.Valid() && Staged(s, target.store, manifest, c, p) && c.table < 5
    requires IsSlice(s, TableAt(c.table), p, page) && Advanced(s, c, p, page, next) && (next.table == 5 ==> Coherent(s))
    requires forall i :: 0 <= i < |page| ==> 0 < |page[i].0| <= MAX_KEY_BYTES
    modifies target
    ensures target.Valid() && Grows(old(target.store), target.store) && CursorMoves(old(target.store), target.store, manifest)
    ensures OnlyAdds(s, old(target.store), target.store) && FromPage(old(target.store), target.store, TableAt(c.table), page)
    ensures r.Ok? ==> Staged(s, target.store, manifest, next, if page == [] then 0 else p + |page|)
    ensures Staged(s, target.store, manifest, c, p) || Staged(s, target.store, manifest, next, if page == [] then 0 else p + |page|)
  {
    hide FromPage, Bounded, Patched, Committed, Staged, Grows, Coherent, Keys, Cursors.Encode, PutAll, AllPuttable, CursorKey, SameRecords;
    ghost var v := target.store;
    Unmoved(s, v);
    var begun := target.Begin();
    if begun.Err? {
      return Err(FromStorage(begun.error));
    }
    var tx := begun.value;
    var cursor := tx.Get(Migration, CursorKey(manifest), 82);
    if cursor.Err? {
      return Err(FromStorage(cursor.error));
    }
    if cursor.value != Some(Cursors.Encode(c)) {
      return Err(Conflict);
    }
    r := ImmutablePutAll(tx, TableAt(c.table), page, MAX_BYTES_VALUE);
    if r.Err? {
      return;
    }
    var put := tx.Put(Migration, CursorKey(manifest), Cursors.Encode(next));
    if put.Err? {
      return Err(FromStorage(put.error));
    }
    StagedNext(s, v, tx.View(), manifest, c, p, page, next);
    ghost var w := Committed(target.hash, v, tx.changes);
    CommittedRecords(target.hash, v, tx.changes);
    PageMoves(s, v, tx.View(), w, manifest, TableAt(c.table), page, Cursors.Encode(next));
    SameStaged(s, tx.View(), w, manifest, next, if page == [] then 0 else p + |page|);
    SameGrows(tx.View(), w);
    GrowsTrans(v, tx.View(), w);
    var done := target.Finish(tx, outcome);
    r := if done.Ok? then Ok(()) else Err(FromStorage(done.error));
  }

  lemma StagedNext(s: Store, v: Store, w: Store, manifest: Key, c: Cursors.Cursor, p: nat, page: seq<RawEntry>, next: Cursors.Cursor)
    requires Staged(s, v, manifest, c, p) && c.table < 5 && IsSlice(s, TableAt(c.table), p, page) && Advanced(s, c, p, page, next)
    requires (next.table == 5 ==> Coherent(s)) && forall i :: 0 <= i < |page| ==> 0 < |page[i].0| <= MAX_KEY_BYTES
    requires AllPuttable(v, TableAt(c.table), page)
    requires w == PutAll(v, TableAt(c.table), page)[Slot(Migration, CursorKey(manifest)) := Cursors.Encode(next)]
    ensures Staged(s, w, manifest, next, if page == [] then 0 else p + |page|) && Grows(v, w)
  {
    hide Coherent, Keys, Cursors.Encode, PutAll, AllPuttable, Copied, Stands;
    var u := PutAll(v, TableAt(c.table), page);
    NextStands(s, c, p, page, next);
    PageCopied(s, v, c.table, p, page);
    CursorAside(u, w, CursorKey(manifest), Cursors.Encode(next));
    GrowsTrans(v, u, w);
    GrowsKeeps(s, u, w);
    KeptCopied(s, u, w, next.table, if page == [] then 0 else p + |page|);
  }

  lemma CursorAside(u: Store, w: Store, k: seq<byte>, b: seq<byte>)
    requires w == u[Slot(Migration, k) := b]
    ensures Grows(u, w) && At(w, Migration, k) == Some(b)
  {
  }

  lemma StartStaged(s: Store, v: Store, manifest: Key)
    requires At(v, Migration, CursorKey(manifest)) == Some(Cursors.Encode(Cursors.Cursor(0, None, 0, 0)))
    ensures Staged(s, v, manifest, Cursors.Cursor(0, None, 0, 0), 0)
  {
  }

  // How far a cursor has come: each page adds rows or finishes a table.
  function Rank(c: Cursors.Cursor): nat
  {
    c.rows + c.table
  }

  function RankIn(v: Store, manifest: Key): nat
  {
    match At(v, Migration, CursorKey(manifest))
    case None => 0
    case Some(bytes) => if Cursors.Decode(bytes).Some? then Rank(Cursors.Decode(bytes).value) else 0
  }

  lemma StartRank(v: Store, manifest: Key)
    ensures At(v, Migration, CursorKey(manifest)) == Some(Cursors.Encode(Cursors.Cursor(0, None, 0, 0))) ==> RankIn(v, manifest) == 0
  {
    hide Cursors.Encode;
    Cursors.RoundTrip(Cursors.Cursor(0, None, 0, 0));
  }

  lemma StagedRank(s: Store, v: Store, manifest: Key, c: Cursors.Cursor, p: nat)
    requires Staged(s, v, manifest, c, p)
    ensures RankIn(v, manifest) == Rank(c) <= RowsBefore(s, 5) + 5
    ensures Cursors.Decode(Cursors.Encode(c)) == Some(c) && |Cursors.Encode(c)| <= 82
  {
    hide Coherent, Copied, Cursors.Encode, Keys;
    Cursors.RoundTrip(c);
    RowsGrow(s, c.table);
  }

  lemma {:induction false} RowsGrow(s: Store, t: nat)
    requires t <= 5
    ensures t < 5 ==> RowsBefore(s, t) + |Keys(s, TableAt(t))| <= RowsBefore(s, 5)
    ensures RowsBefore(s, t) <= RowsBefore(s, 5)
    decreases 5 - t
  {
    hide Keys;
    if t < 5 {
      RowsGrow(s, t + 1);
    }
  }

  datatype Progress = Progress(manifest: Key, rows: u64, bytes: u64, complete: bool)

  class TransferSource {
    const db: Database
    const manifest: Key
    const target: Key
    const sources: seq<(Key, Head)>

    constructor (db: Database, manifest: Key, target: Key, sources: seq<(Key, Head)>)
      ensures this.db == db && this.manifest == manifest && this.target == target && this.sources == sources
    {
      this.db, this.manifest, this.target, this.sources := db, manifest, target, sources;
    }

    // Every origin is staged under the manifest, and the manifest names the target.
    ghost predicate Prepared(v: Store)
    {
      && At(v, Migration, TargetKey(manifest)) == Some(target)
      && forall i :: 0 <= i < |sources| ==> At(v, Migration, StageKey(sources[i].0)) == Some(manifest)
    }

    // No transfer has started on v, or v is as one leaves it.
    ghost predicate Resumable(s: Store, v: Store)
    {
      At(v, Migration, CursorKey(manifest)).None? || (Prepared(v) && exists c, p :: Staged(s, v, manifest, c, p))
    }

    // An origin with no head in v, neither fenced nor staged there.
    predicate FreeOrigin(v: Store, origin: Key)
    {
      origin != target && At(v, Heads, origin).None? && At(v, Migration, FenceKey(origin)).None? && At(v, Migration, StageKey(origin)).None?
    }

    // What any stretch of the transfer may do to the target: add rows of the source and move the
    // cursor; and start, once, over free origins.
    ghost predicate Moves(s: Store, v: Store, w: Store)
    {
      var key := CursorKey(manifest);
      && Grows(v, w) && OnlyAdds(s, v, w) && Resumable(s, w)
      && (At(v, Migration, key).Some? ==> At(w, Migration, key).Some? && CursorMoves(v, w, manifest))
      && (At(v, Migration, key).None? && At(w, Migration, key).None? ==> SameRecords(v, w))
      && (At(v, Migration, key).None? && At(w, Migration, key).Some? ==> forall i :: 0 <= i < |sources| ==> FreeOrigin(v, sources[i].0))
    }

    lemma MovesNot(s: Store, v: Store)
      requires Resumable(s, v)
      ensures Moves(s, v, v)
    {
      hide Staged, Prepared;
    }

    lemma MovesResumes(s: Store, v: Store, w: Store)
      requires Moves(s, v, w)
      ensures Resumable(s, w)
    {
      hide Staged, Prepared;
    }

    lemma MovesTrans(s: Store, u: Store, v: Store, w: Store)
      requires Moves(s, u, v) && Moves(s, v, w)
      ensures Moves(s, u, w)
    {
      hide Staged, Prepared, CursorKey, FenceKey, StageKey;
      GrowsTrans(u, v, w);
      AddsTrans(s, u, v, w);
    }

    // A migration of any origin of the transfer, into whatever namespace, goes through only if
    // that is the transfer's target and the whole of a coherent source is there.
    lemma MigrationNeedsComplete(s: Store, v: Store, w: Write, named: Key, origins: seq<(Key, Head)>, i: nat, j: nat)
      requires Resumable(s, v) && At(v, Migration, CursorKey(manifest)).Some?
      requires Acceptable(v, w, Migrate(named, origins)) && i < |origins| && j < |sources| && origins[i].0 == sources[j].0
      ensures w.namespace == target && Coherent(s) && forall t :: InTransfer(t) ==> Holds(s, v, t)
    {
      hide Coherent, Holds, Copied, Acceptable, Applied, Cursors.Encode, Keys, StageKey, TargetKey;
      var ns := w.namespace;
      MigrationFences(v, Applied(v, w, Migrate(named, origins)), w, named, origins, i);
      assert CompleteFor(v, sources[j].0, ns);
      var c, p :| Staged(s, v, manifest, c, p);
      Cursors.RoundTrip(c);
      CompleteCopies(s, v, manifest, c, p);
    }

    // Fence the origins, name the target and start the cursor, once.
    method PrepareTarget(into: Database, outcome: Outcome, ghost s: Store) returns (r: Result<(), Error>)
      requires into.Valid() && Resumable(s, into.store)
      modifies into
      ensures into.Valid() && Moves(s, old(into.store), into.store)
      ensures r.Ok? ==> At(into.store, Migration, CursorKey(manifest)).Some? && Prepared(into.store)
      ensures At(old(into.store), Migration, CursorKey(manifest)).Some? ==> into.store == old(into.store)
      ensures Bookkept(old(into.store), into.store)
      ensures r.Ok? && At(old(into.store), Migration, CursorKey(manifest)).None? ==>
        && (forall i :: 0 <= i < |sources| ==> FreeOrigin(old(into.store), sources[i].0)) && Bookkept(old(into.store), into.store)
        && At(into.store, Migration, CursorKey(manifest)) == Some(Cursors.Encode(Cursors.Cursor(0, None, 0, 0)))
        && Raised(old(into.store), into.store)
    {
      hide Raised, Bounded, Patched, Committed, Grows, Staged, FreeOrigin, Prepared, CursorKey, OnlyAdds, SameRecords, Bookkept, Cursors.Encode;
      ghost var v := into.store;
      MovesNot(s, v);
      BookkeptNone(v);
      var begun := into.Begin();
      if begun.Err? {
        return Err(FromStorage(begun.error));
      }
      var tx := begun.value;
      var cursor := tx.Get(Migration, CursorKey(manifest), 82);
      if cursor.Err? {
        return Err(FromStorage(cursor.error));
      }
      if cursor.value.Some? {
        return Ok(());
      }
      r := StagePreparation(tx);
      if r.Err? {
        return;
      }
      ghost var w := Committed(into.hash, v, tx.changes);
      CommittedRecords(into.hash, v, tx.changes);
      StartStaged(s, tx.View(), manifest);
      SameStaged(s, tx.View(), w, manifest, Cursors.Cursor(0, None, 0, 0), 0);
      SamePrepared(tx.View(), w);
      BookkeptSame(v, tx.View(), w);
      BookkeptAdds(s, v, w);
      SameCursor(tx.View(), w);
      RaisedSame(v, tx.View(), w);
      var done := into.Finish(tx, outcome);
      assert At(w, Migration, CursorKey(manifest)).Some?;
      r := if done.Ok? then Ok(()) else Err(FromStorage(done.error));
    }

    lemma SameCursor(v: Store, w: Store)
      requires SameRecords(v, w)
      ensures At(w, Migration, CursorKey(manifest)) == At(v, Migration, CursorKey(manifest))
    {
    }

    lemma SamePrepared(v: Store, w: Store)
      requires Prepared(v) && (SameRecords(v, w) || CursorMoves(v, w, manifest))
      ensures Prepared(w)
    {
      forall i | 0 <= i < |sources|
        ensures At(w, Migration, StageKey(sources[i].0)) == Some(manifest)
      {
        assert StageKey(sources[i].0)[0] == 's' as int && CursorKey(manifest)[0] == 't' as int;
      }
      assert TargetKey(manifest)[0] == 'u' as int;
    }

    // v with the first origins staged, its heads and fences as they were.
    ghost predicate StagedUpTo(v: Store, w: Store, n: nat)
      requires n <= |sources|
    {
      && Bookkept(v, w) && Raised(v, w)
      && (forall k :: |k| == 45 ==> At(w, Migration, k) == At(v, Migration, k))
      && (forall k :: k != STATUS && At(v, Migration, k).Some? ==> At(w, Migration, k).Some?)
      && forall i :: 0 <= i < n ==> FreeOrigin(v, sources[i].0) && At(w, Migration, StageKey(sources[i].0)) == Some(manifest)
    }

    lemma StagedOne(v: Store, w: Store, n: nat)
      requires n < |sources| && StagedUpTo(v, w, n) && FreeOrigin(w, sources[n].0)
      ensures StagedUpTo(v, w[Slot(Migration, StageKey(sources[n].0)) := manifest], n + 1)
    {
      FenceKeyShort(sources[n].0);
      RaisedAside(v, w, StageKey(sources[n].0), manifest);
    }

    lemma StagedNone(v: Store)
      ensures StagedUpTo(v, Promoted(v), 0)
    {
      hide Generation, Raised;
      PromotedRaised(v);
      FenceKeyShort(target);
    }

    lemma StagedAll(v: Store, w: Store, u: Store)
      requires StagedUpTo(v, w, |sources|)
      requires u == w[Slot(Migration, TargetKey(manifest)) := target]
                     [Slot(Migration, CursorKey(manifest)) := Cursors.Encode(Cursors.Cursor(0, None, 0, 0))]
      ensures Bookkept(v, u) && Prepared(u) && forall i :: 0 <= i < |sources| ==> FreeOrigin(v, sources[i].0)
      ensures At(u, Migration, CursorKey(manifest)) == Some(Cursors.Encode(Cursors.Cursor(0, None, 0, 0))) && Raised(v, u)
    {
      hide Cursors.Encode;
      RaisedAside(v, w, TargetKey(manifest), target);
      RaisedAside(v, w[Slot(Migration, TargetKey(manifest)) := target], CursorKey(manifest), Cursors.Encode(Cursors.Cursor(0, None, 0, 0)));
      assert TargetKey(manifest)[0] == 'u' as int && CursorKey(manifest)[0] == 't' as int;
      forall i | 0 <= i < |sources|
        ensures At(u, Migration, StageKey(sources[i].0)) == Some(manifest)
      {
        assert StageKey(sources[i].0)[0] == 's' as int;
      }
    }

    method StagePreparation(tx: Transaction) returns (r: Result<(), Error>)
      requires tx.Valid()
      modifies tx
      ensures tx.Valid()
      ensures r.Ok? ==> Bookkept(old(tx.View()), tx.View()) && Prepared(tx.View())
      ensures r.Ok? ==> forall i :: 0 <= i < |sources| ==> FreeOrigin(old(tx.View()), sources[i].0)
      ensures r.Ok? ==> At(tx.View(), Migration, CursorKey(manifest)) == Some(Cursors.Encode(Cursors.Cursor(0, None, 0, 0)))
      ensures r.Ok? ==> Raised(old(tx.View()), tx.View())
    {
      hide Raised, Bounded, Patched, Cursors.Encode, Generation, FreeOrigin, Prepared, StagedUpTo, StageKey, TargetKey, CursorKey, Promoted;
      ghost var v := tx.View();
      r := Promote(tx);
      if r.Err? {
        return;
      }
      StagedNone(v);
      var i := 0;
      while i < |sources|
        invariant 0 <= i <= |sources| && tx.Valid() && StagedUpTo(v, tx.View(), i)
      {
        ghost var before := tx.View();
        r := StageOrigin(tx, sources[i].0);
        if r.Err? {
          return;
        }
        StagedOne(v, before, i);
        i := i + 1;
      }
      ghost var u := tx.View();
      var put := tx.Put(Migration, TargetKey(manifest), target);
      if put.Err? {
        return Err(FromStorage(put.error));
      }
      put := tx.Put(Migration, CursorKey(manifest), Cursors.Encode(Cursors.Cursor(0, None, 0, 0)));
      if put.Err? {
        return Err(FromStorage(put.error));
      }
      StagedAll(v, u, tx.View());
      r := Ok(());
    }

    // An origin must have no head here and be neither fenced nor staged; then it is staged.
    method StageOrigin(tx: Transaction, origin: Key) returns (r: Result<(), Error>)
      requires tx.Valid()
      modifies tx
      ensures tx.Valid()
      ensures r.Ok? ==> FreeOrigin(old(tx.View()), origin) && tx.View() == old(tx.View())[Slot(Migration, StageKey(origin)) := manifest]
      ensures !FreeOrigin(old(tx.View()), origin) ==> r.Err? && tx.View() == old(tx.View())
    {
      hide Bounded, Patched;
      var head := tx.Get(Heads, origin, 40);
      var fence := tx.Get(Migration, FenceKey(origin), 64);
      var stage := tx.Get(Migration, StageKey(origin), 32);
      if head.Err? || fence.Err? || stage.Err? {
        return Err(Limited);
      }
      if origin == target || head.value.Some? || fence.value.Some? || stage.value.Some? {
        return Err(Conflict);
      }
      var put := tx.Put(Migration, StageKey(origin), manifest);
      r := if put.Ok? then Ok(()) else Err(FromStorage(put.error));
    }

    // Copy at most the given number of pages. Whatever fails or is lost, the target stays a
    // resumable copy of a prefix of the source, and nothing in it is overwritten. When it
    // returns, it has advanced by that many steps or is complete.
    method Stage(into: Database, pages: nat, contentOk: (seq<byte>, seq<byte>) -> bool, outcomes: nat -> Outcome,
                 validation: nat -> Outcome, ghost s: Store) returns (r: Result<Progress, Error>)
      requires into.Valid() && db.Valid() && db != into && Resumable(s, into.store)
      requires SameChain(s, db.store) && Genuine(db.store, s)
      modifies into, db
      ensures into.Valid() && db.Valid() && Moves(s, old(into.store), into.store)
      ensures SameChain(s, db.store) && Genuine(db.store, s)
      ensures r.Ok? ==> Reached(s, into.store, r.value)
      ensures r.Ok? && !r.value.complete ==> RankIn(into.store, manifest) >= RankIn(old(into.store), manifest) + pages
      ensures r.Ok? ==> RankIn(into.store, manifest) <= RankIn(old(into.store), manifest) + 512 * pages
      ensures Checked(old(into.store), into.store, contentOk)
      ensures r.Ok? && r.value.complete ==> Coherent(s) && forall t, k :: InTransfer(t) && At(s, t, k).Some? ==> At(into.store, t, k) == At(s, t, k)
      ensures pages == 0 || pages > 4096 ==> r == Err(Limited) && into.store == old(into.store) && db.store == old(db.store)
    {
      hide Coherent, Checked, Staged, Grows, SameChain, Genuine, Cursors.Encode, Cursors.Decode, Prepared, FreeOrigin, Moves;
      MovesNot(s, into.store);
      BookkeptChecked(into.store, into.store, contentOk);
      if pages == 0 || pages > 4096 {
        return Err(Limited);
      }
      var prepared := PrepareTarget(into, outcomes(0), s);
      BookkeptChecked(old(into.store), into.store, contentOk);
      if prepared.Err? {
        return Err(prepared.error);
      }
      MovesResumes(s, old(into.store), into.store);
      StartRank(into.store, manifest);
      ghost var c0, p0 :| Staged(s, into.store, manifest, c0, p0);
      StagedRank(s, into.store, manifest, c0, p0);
      CursorOf(s, into.store, manifest, c0, p0);
      var read := ReadRow(into, Migration, CursorKey(manifest), 82);
      if read.Err? {
        return Err(FromStorage(read.error));
      }
      var cursor := Cursors.Decode(read.value.value).value;
      ghost var p := p0;
      var n := 0;
      while n < pages && cursor.table < 5
        invariant 0 <= n <= pages && into.Valid() && db.Valid() && Staged(s, into.store, manifest, cursor, p)
        invariant SameChain(s, db.store) && Genuine(db.store, s) && Moves(s, old(into.store), into.store) && Prepared(into.store)
        invariant cursor.table <= 5 && RankIn(old(into.store), manifest) + n <= Rank(cursor) <= RankIn(old(into.store), manifest) + 512 * n
        invariant Checked(old(into.store), into.store, contentOk)
      {
        ghost var v := into.store;
        var advanced;
        advanced, cursor, p := StagePage(into, cursor, contentOk, outcomes(n + 1), validation, s, p);
        MovesTrans(s, old(into.store), v, into.store);
        CheckedOn(s, old(into.store), v, into.store, contentOk);
        if advanced.Err? {
          return Err(advanced.error);
        }
        n := n + 1;
      }
      StagedRank(s, into.store, manifest, cursor, p);
      WhenComplete(s, into.store, manifest, cursor, p);
      r := Ok(Progress(manifest, cursor.rows, cursor.bytes, cursor.table == 5));
      assert Reached(s, into.store, r.value);
    }

    lemma CheckedOn(s: Store, u: Store, v: Store, w: Store, contentOk: (seq<byte>, seq<byte>) -> bool)
      requires Checked(u, v, contentOk) && Checked(v, w, contentOk) && Moves(s, v, w)
      ensures Checked(u, w, contentOk)
    {
      hide Checked, Grows, OnlyAdds, Resumable, CursorMoves, SameRecords;
      CheckedTrans(u, v, w, contentOk);
    }

    // What a report says of the target.
    ghost predicate Reached(s: Store, v: Store, report: Progress)
    {
      exists c, p :: Staged(s, v, manifest, c, p) && report == Progress(manifest, c.rows, c.bytes, c.table == 5)
    }

    // Scan, check and copy one page, or close a table; closing the last validates the chain.
    method StagePage(into: Database, cursor: Cursors.Cursor, contentOk: (seq<byte>, seq<byte>) -> bool, outcome: Outcome,
                     validation: nat -> Outcome, ghost s: Store, ghost p: nat)
      returns (r: Result<(), Error>, next: Cursors.Cursor, ghost q: nat)
      requires into.Valid() && db.Valid() && db != into && Staged(s, into.store, manifest, cursor, p) && cursor.table < 5 && Prepared(into.store)
      requires SameChain(s, db.store) && Genuine(db.store, s)
      modifies into, db
      ensures into.Valid() && db.Valid() && Moves(s, old(into.store), into.store)
      ensures SameChain(s, db.store) && Genuine(db.store, s) && Prepared(into.store)
      ensures r.Ok? ==> Staged(s, into.store, manifest, next, q) && Rank(cursor) + 1 <= Rank(next) <= Rank(cursor) + 512 && next.table <= 5
      ensures Checked(old(into.store), into.store, contentOk)
    {
      hide FromPage, Checked, Staged, Grows, SameChain, Genuine, Coherent, CursorAt, IsSlice, Prepared, CursorMoves, Moves, OnlyAdds, Cursors.Encode, CursorKey, Keys, Used;
      next, q := cursor, p;
      ghost var v := into.store;
      BookkeptChecked(v, v, contentOk);
      MovesNot(s, into.store);
      ScanStart(s, into.store, manifest, cursor, p);
      SameChainRows(s, db.store);
      var page := NextPage(db, TableAt(cursor.table), PAGE, cursor.after, s, p);
      if page.Err? {
        return Err(page.error), next, q;
      }
      var rows := page.value;
      if rows == [] {
        next := cursor.(table := cursor.table + 1, after := None);
        q := 0;
        if next.table == 5 {
          r := ValidateLinks(db, LINK_PAGE, validation, s);
          if r.Err? {
            return;
          }
        }
      } else {
        var counted := CountPage(cursor, TableAt(cursor.table), rows, contentOk);
        if counted.Err? {
          return Err(counted.error), next, q;
        }
        next, q := counted.value, p + |rows|;
      }
      r := CopyOn(into, cursor, rows, next, outcome, s, p, q);
      PageChecked(v, into.store, TableAt(cursor.table), rows, contentOk);
    }

    // The page's own transaction, with what it leaves for the next one.
    method CopyOn(into: Database, cursor: Cursors.Cursor, rows: seq<RawEntry>, next: Cursors.Cursor, outcome: Outcome,
                  ghost s: Store, ghost p: nat, ghost q: nat) returns (r: Result<(), Error>)
      requires into.Valid() && Staged(s, into.store, manifest, cursor, p) && cursor.table < 5 && Prepared(into.store)
      requires IsSlice(s, TableAt(cursor.table), p, rows) && Advanced(s, cursor, p, rows, next) && (next.table == 5 ==> Coherent(s))
      requires (forall i :: 0 <= i < |rows| ==> 0 < |rows[i].0| <= MAX_KEY_BYTES) && q == if rows == [] then 0 else p + |rows|
      modifies into
      ensures into.Valid() && Moves(s, old(into.store), into.store) && Prepared(into.store)
      ensures r.Ok? ==> Staged(s, into.store, manifest, next, q)
      ensures FromPage(old(into.store), into.store, TableAt(cursor.table), rows)
    {
      hide FromPage, Staged, Grows, Coherent, IsSlice, Prepared, CursorMoves, Moves, OnlyAdds, Cursors.Encode, CursorKey, Keys, Used, Advanced;
      ghost var v := into.store;
      CursorOf(s, v, manifest, cursor, p);
      r := CopyPage(into, manifest, cursor, rows, next, outcome, s, p);
      SamePrepared(v, into.store);
      PageMovesOn(s, v, into.store, cursor, p, next, q);
    }

    lemma PageMovesOn(s: Store, v: Store, w: Store, c: Cursors.Cursor, p: nat, next: Cursors.Cursor, q: nat)
      requires Grows(v, w) && OnlyAdds(s, v, w) && CursorMoves(v, w, manifest) && Prepared(w)
      requires At(v, Migration, CursorKey(manifest)).Some? && (Staged(s, w, manifest, c, p) || Staged(s, w, manifest, next, q))
      ensures Moves(s, v, w)
    {
      hide Grows, OnlyAdds, CursorMoves, Prepared, Copied, Stands, Coherent, Cursors.Encode;
    }
  }

  lemma ScanStart(s: Store, v: Store, manifest: Key, c: Cursors.Cursor, p: nat)
    requires Staged(s, v, manifest, c, p) && c.table < 5
    ensures CursorAt(s, TableAt(c.table), c.after, p)
  {
    hide Coherent, Copied, Cursors.Encode;
    if p == 0 {
      StartOf(s, TableAt(c.table));
    } else {
      KeysAreAll(s, TableAt(c.table));
      NextKeys(RowsIn(s, TableAt(c.table)), None, [], p);
    }
  }

  lemma CursorOf(s: Store, v: Store, manifest: Key, c: Cursors.Cursor, p: nat)
    requires Staged(s, v, manifest, c, p)
    ensures At(v, Migration, CursorKey(manifest)) == Some(Cursors.Encode(c)) && c.table <= 5
  {
  }
}
