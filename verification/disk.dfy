// The shard view of a database: pending mutations over durable rows.
module Disks {
  import opened Wrappers
  import opened Bytes
  import opened Integers
  import opened Records
  import opened Stores
  import opened Scans
  import opened Databases
  import opened Buffers

  // Eight little-endian bytes per field element.
  function Serialize(fs: Fields): (bs: seq<byte>)
    ensures |bs| == 8 * |fs|
  {
    if fs == [] then [] else EncodeU64(fs[0]) + Serialize(fs[1..])
  }

  // Canonical elements only.
  function Deserialize(bs: seq<byte>): Option<Fields>
    requires |bs| % 8 == 0
    decreases |bs|
  {
    if bs == [] then Some([])
    else
      var v := DecodeU64(bs[..8]);
      match Deserialize(bs[8..])
      case None => None
      case Some(rest) => if v < FIELD then Some([v] + rest) else None
  }

  lemma {:induction false} FieldsRoundTrip(fs: Fields)
    ensures Deserialize(Serialize(fs)) == Some(fs)
  {
    if fs != [] {
      var bs := Serialize(fs);
      FieldsRoundTrip(fs[1..]);
      U64RoundTrip(fs[0]);
      assert bs[..8] == EncodeU64(fs[0]) && bs[8..] == Serialize(fs[1..]);
      assert fs == [fs[0]] + fs[1..];
    }
  }

  // The element-by-element decoder.
  method DeserializeLoop(bs: seq<byte>, max: nat) returns (r: Result<Fields, StorageError>)
    ensures r == Decoded(bs, max)
  {
    if |bs| % 8 != 0 {
      return Err(Corrupt);
    }
    if |bs| / 8 > max {
      return Err(Limit);
    }
    var out: Fields, rest := [], bs;
    assert forall tail: Fields :: [] + tail == tail;
    while rest != []
      invariant |rest| % 8 == 0
      invariant Deserialize(bs) == match Deserialize(rest) case None => None case Some(tail) => Some(out + tail)
      decreases |rest|
    {
      var v := DecodeU64(rest[..8]);
      if v >= FIELD {
        return Err(Corrupt);
      }
      ghost var tail := Deserialize(rest[8..]);
      assert tail.Some? ==> out + ([v] + tail.value) == (out + [v]) + tail.value;
      out := out + [v];
      rest := rest[8..];
    }
    assert out + [] == out;
    r := Ok(out);
  }

  function Decoded(bs: seq<byte>, max: nat): Result<Fields, StorageError>
  {
    if |bs| % 8 != 0 then Err(Corrupt)
    else if |bs| / 8 > max then Err(Limit)
    else match Deserialize(bs) case None => Err(Corrupt) case Some(fs) => Ok(fs)
  }

  // What a read of durable rows returns.
  function Loaded(s: Store, x: Slab, max: nat): Result<Option<Fields>, StorageError>
  {
    if x.d == EPHEMERAL then Ok(None)
    else
      match At(s, Shard(x.d), x.k)
      case None => Ok(None)
      case Some(bs) =>
        if |bs| > 8 * max then Err(Limit)
        else match Decoded(bs, max) case Err(e) => Err(e) case Ok(fs) => Ok(Some(fs))
  }

  // What a read returns: the pending mutation if there is one, else the durable row.
  function Visible(s: Store, cache: map<Slab, Fields>, deleted: set<Slab>, x: Slab, max: nat): Result<Option<Fields>, StorageError>
  {
    if x in deleted then Ok(None)
    else if x in cache then (if |cache[x]| > max then Err(Limit) else Ok(Some(cache[x])))
    else Loaded(s, x, max)
  }

  // A stored value reads back within exactly its own size.
  lemma StoredLoads(s: Store, x: Slab, fs: Fields, max: nat)
    requires x.d != EPHEMERAL && At(s, Shard(x.d), x.k) == Some(Serialize(fs))
    ensures Loaded(s, x, max) == if |fs| > max then Err(Limit) else Ok(Some(fs))
  {
    hide Serialize, Deserialize;
    FieldsRoundTrip(fs);
    assert 8 * |fs| / 8 == |fs| && 8 * |fs| % 8 == 0;
  }

  // The durable rows after a commit: dirty values in, deleted rows out.
  ghost predicate Flushed(s: Store, v: Store, held: map<Slab, Fields>, deleted: set<Slab>)
  {
    forall x: Slab :: At(v, Shard(x.d), x.k) ==
      if x in held then Some(Serialize(held[x])) else if x in deleted then None else At(s, Shard(x.d), x.k)
  }

  // No read can tell a committed mutation from a pending one.
  lemma FlushInvisible(s: Store, v: Store, cache: map<Slab, Fields>, held: map<Slab, Fields>, deleted: set<Slab>, x: Slab, max: nat)
    requires Agrees(cache, held, deleted) && Flushed(s, v, held, deleted)
    ensures var local := map y | y in cache && y.d == EPHEMERAL :: cache[y];
            Visible(v, local, {}, x, max) == Visible(s, cache, deleted, x, max)
  {
    hide Serialize;
    if x in held {
      StoredLoads(v, x, held[x], max);
    }
  }

  // ---------------------------------------------------------------- the store

  function ShardSlot(x: Slab): Slot { Slot(Shard(x.d), x.k) }

  // A change set of at most n keys of 32 bytes and e elements.
  ghost predicate Sized(c: Changes, n: nat, e: nat)
  {
    WellSized(c) && |c| <= n && TotalBytes(c) <= 32 * n + 8 * e
  }

  lemma SizedPut(c: Changes, n: nat, e: nat, x: Slab, v: Option<Fields>)
    requires Sized(c, n, e) && n < MAX_PENDING_KEYS && (v.Some? ==> |v.value| <= MAX_VALUE_ELEMENTS && e + |v.value| <= MAX_PENDING_ELEMENTS)
    requires e <= MAX_PENDING_ELEMENTS
    ensures var b := match v case None => None case Some(fs) => Some(Serialize(fs));
            Sized(c[ShardSlot(x) := b], n + 1, e + (if v.Some? then |v.value| else 0)) && Bounded(c[ShardSlot(x) := b])
  {
    hide Serialize, TotalBytes;
    var b := match v case None => None case Some(fs) => Some(Serialize(fs));
    TotalPut(c, ShardSlot(x), b);
  }

  // The first n dirty values are written.
  ghost predicate Written(s: Store, v: Store, positions: map<Slab, nat>, dirty: seq<(Slab, Fields)>, n: nat)
    requires Inverts(positions, dirty)
  {
    forall x: Slab :: At(v, Shard(x.d), x.k) ==
      if x in positions && positions[x] < n then Some(Serialize(dirty[positions[x]].1)) else At(s, Shard(x.d), x.k)
  }

  lemma WriteNext(s: Store, v: Store, positions: map<Slab, nat>, dirty: seq<(Slab, Fields)>, n: nat)
    requires Inverts(positions, dirty) && n < |dirty| && Written(s, v, positions, dirty, n)
    ensures Written(s, v[ShardSlot(dirty[n].0) := Serialize(dirty[n].1)], positions, dirty, n + 1)
  {
    hide Serialize;
  }

  lemma AllWritten(s: Store, v: Store, positions: map<Slab, nat>, dirty: seq<(Slab, Fields)>)
    requires Inverts(positions, dirty) && Written(s, v, positions, dirty, |dirty|)
    ensures Flushed(s, v, Held(positions, dirty), {})
  {
    hide Serialize;
  }

  lemma NothingWritten(s: Store, positions: map<Slab, nat>, dirty: seq<(Slab, Fields)>)
    requires Inverts(positions, dirty)
    ensures Written(s, s, positions, dirty, 0) && Sized(map[], 0, 0)
  {
  }

  lemma DeleteNext(s: Store, v: Store, held: map<Slab, Fields>, gone: set<Slab>, x: Slab)
    requires Flushed(s, v, held, gone) && x !in held
    ensures Flushed(s, v - {ShardSlot(x)}, held, gone + {x})
  {
    hide Serialize;
  }

  lemma FlushedSame(s: Store, v: Store, w: Store, held: map<Slab, Fields>, deleted: set<Slab>)
    requires Flushed(s, v, held, deleted) && forall x: Slab :: At(w, Shard(x.d), x.k) == At(v, Shard(x.d), x.k)
    ensures Flushed(s, w, held, deleted)
  {
    hide Serialize;
  }

  lemma CommittedShards(hash: seq<byte> -> Key, s: Store, c: Changes)
    ensures forall x: Slab :: At(Committed(hash, s, c), Shard(x.d), x.k) == At(Patched(s, c), Shard(x.d), x.k)
  {
    forall x: Slab
      ensures At(Committed(hash, s, c), Shard(x.d), x.k) == At(Patched(s, c), Shard(x.d), x.k)
    {
      PatchedAt(s, c, Shard(x.d), x.k);
      PatchedAt(s, Marked(c, ChangeId(hash, c)), Shard(x.d), x.k);
    }
  }

  lemma ElementsUpTo(dirty: seq<(Slab, Fields)>, n: nat)
    requires n < |dirty|
    ensures Elements(dirty[..n + 1]) == Elements(dirty[..n]) + |dirty[n].1|
    ensures Elements(dirty[..n + 1]) <= Elements(dirty)
    decreases |dirty| - n
  {
    assert dirty[..n + 1][..n] == dirty[..n];
    if n + 1 == |dirty| {
      assert dirty[..n + 1] == dirty;
    } else {
      ElementsUpTo(dirty, n + 1);
    }
  }

  // The commit marker, if it is one.
  function Marker(s: Store): Option<Option<Key>>
  {
    match At(s, Metadata, LAST_COMMIT)
    case None => Some(None)
    case Some(bs) => if |bs| == 32 then Some(Some(bs)) else None
  }

  // What the identity of an empty buffer is hashed from: a tag and a count of zero.
  function EmptyBatch(): seq<byte>
  {
    Ascii("bbg/shard-batch/v1") + [0] + EncodeU64(0)
  }

  lemma TouchIn(c: Changes, x: Slab)
    requires Slot(Shard(x.d), x.k) in c
    ensures TouchesShard(c)
  {
  }

  lemma CommitMarked(hash: seq<byte> -> Key, s: Store, c: Changes)
    requires TouchesShard(c)
    ensures c != map[] && Marker(Committed(hash, s, c)) == Some(Some(ChangeId(hash, c)))
  {
    assert LAST_COMMIT[5] == 'c' as int && LAST_TRANSACTION[5] == 't' as int;
    PatchedAt(s, Marked(c, ChangeId(hash, c)), Metadata, LAST_COMMIT);
  }

  class DiskStore {
    const db: Database
    const pending: WriteBuffer

    ghost predicate Valid()
      reads this, db, pending
    {
      db.Valid() && pending.Valid()
    }

    // What this view returns for a key, within a read limit.
    ghost function View(x: Slab, max: nat): Result<Option<Fields>, StorageError>
      reads this, db, pending
    {
      Visible(db.store, pending.cache, pending.deleted, x, max)
    }

    constructor (db: Database)
      requires db.Valid()
      ensures Valid() && this.db == db && fresh(pending)
    {
      this.db := db;
      pending := new WriteBuffer();
    }

    // Staged mutations first, then the durable row.
    method Read(x: Slab, max: nat) returns (r: Result<Option<Fields>, StorageError>)
      requires Valid()
      ensures pending.unknown.None? && db.failure.None? ==> r == if max > MAX_VALUE_ELEMENTS then Err(Limit) else View(x, max)
      ensures pending.unknown.Some? || db.failure.Some? ==> r.Err?
    {
      hide Deserialize;
      if pending.unknown.Some? {
        return Err(pending.unknown.value);
      }
      if db.failure.Some? {
        return Err(db.failure.value);
      }
      if max > MAX_VALUE_ELEMENTS {
        return Err(Limit);
      }
      if x in pending.deleted {
        return Ok(None);
      }
      if x in pending.cache {
        return if |pending.cache[x]| > max then Err(Limit) else Ok(Some(pending.cache[x]));
      }
      if x.d == EPHEMERAL {
        return Ok(None);
      }
      var bytes := ReadRow(db, Shard(x.d), x.k, max * 8);
      if bytes.Err? {
        return Err(bytes.error);
      }
      if bytes.value.None? {
        return Ok(None);
      }
      var decoded := DeserializeLoop(bytes.value.value, max);
      r := match decoded case Err(e) => Err(e) case Ok(fs) => Ok(Some(fs));
    }

    // last_commit: the marker of the last commit that touched a shard.
    method LastCommit() returns (r: Result<Option<Key>, StorageError>)
      requires Valid()
      ensures r.Ok? ==> Marker(db.store) == Some(r.value)
      ensures pending.unknown.None? && db.failure.None? && Marker(db.store).Some? ==> r.Ok?
    {
      if pending.unknown.Some? {
        return Err(pending.unknown.value);
      }
      var bytes := ReadRow(db, Metadata, LAST_COMMIT, 32);
      if bytes.Err? {
        return Err(bytes.error);
      }
      if bytes.value.None? {
        return Ok(None);
      }
      if |bytes.value.value| != 32 {
        return Err(Corrupt);
      }
      r := Ok(Some(bytes.value.value));
    }

    // Write what is pending in one transaction; the buffer's budgets fit the transaction's, so only
    // the engine can refuse. After a commit every read returns what it returned before, and the
    // identity returned is the one the store is marked with.
    method Commit(outcome: Outcome) returns (r: Result<Key, StorageError>)
      requires Valid()
      modifies db, pending
      ensures Valid()
      ensures r.Ok? ==> forall x, max :: View(x, max) == old(View(x, max))
      ensures r.Ok? ==> pending.dirty == [] && pending.deleted == {}
      ensures (&& old(pending.unknown).None? && old(db.failure).None? && outcome == Clean
               && (old(pending.dirty) != [] || old(pending.deleted) != {} || Marker(old(db.store)).Some?)) ==> r.Ok?
      ensures r.Ok? && (old(pending.dirty) != [] || old(pending.deleted) != {}) ==> Marker(db.store) == Some(Some(r.value))
      ensures r.Ok? && old(pending.dirty) == [] && old(pending.deleted) == {} ==>
        db.store == old(db.store) && Marker(db.store).Some?
        && r.value == match Marker(db.store).value case Some(id) => id case None => db.hash(EmptyBatch())
      ensures r.Err? ==> pending.cache == old(pending.cache) && pending.dirty == old(pending.dirty) && pending.deleted == old(pending.deleted)
      ensures r.Err? && outcome == Failed ==> db.store == old(db.store)
      ensures old(db.failure).None? && db.failure.Some? ==> pending.unknown == db.failure
    {
      hide Inverts, Held, Agrees, Elements, Bounded, Patched, Committed, Visible, ChangeId, TouchesShard, Marker;
      if pending.unknown.Some? {
        return Err(pending.unknown.value);
      }
      var begun := db.Begin();
      if begun.Err? {
        return Err(begun.error);
      }
      if pending.dirty == [] && pending.deleted == {} {
        var last := LastCommit();
        r := match last
             case Err(e) => Err(e)
             case Ok(Some(id)) => Ok(id)
             case Ok(None) => Ok(db.hash(EmptyBatch()));
        return;
      }
      var tx := begun.value;
      ghost var s, held := db.store, Held(pending.positions, pending.dirty);
      StageAll(tx, s);
      ghost var w := Committed(db.hash, s, tx.changes);
      CommittedShards(db.hash, s, tx.changes);
      FlushedSame(s, tx.View(), w, held, pending.deleted);
      var done := db.Finish(tx, outcome);
      if done.Err? {
        if done.error.CommitUnknown? {
          pending.unknown := Some(done.error);
        }
        return Err(done.error);
      }
      forall x, max
        ensures Visible(w, (map y | y in pending.cache && y.d == EPHEMERAL :: pending.cache[y]), {}, x, max)
             == Visible(s, pending.cache, pending.deleted, x, max)
      {
        FlushInvisible(s, w, pending.cache, held, pending.deleted, x, max);
      }
      pending.Finish();
      CommitMarked(db.hash, s, tx.changes);
      r := Ok(done.value.value);
    }

    method StageAll(tx: Transaction, ghost s: Store)
      requires Valid() && tx.Valid() && tx.changes == map[] && tx.View() == s && (pending.dirty != [] || pending.deleted != {})
      modifies tx
      ensures tx.Valid() && TouchesShard(tx.changes)
      ensures Flushed(s, tx.View(), Held(pending.positions, pending.dirty), pending.deleted)
    {
      hide Elements, Bounded, Patched, Serialize, Sized, Flushed, Held;
      StageDirty(tx, s);
      ghost var held := Held(pending.positions, pending.dirty);
      var todo := pending.deleted;
      ghost var gone: set<Slab> := {};
      while todo != {}
        invariant gone + todo == pending.deleted && gone !! todo && |gone| + |todo| == |pending.deleted|
        invariant tx.Valid() && Flushed(s, tx.View(), held, gone)
        invariant Sized(tx.changes, |pending.dirty| + |gone|, pending.elements)
        invariant pending.dirty != [] || gone != {} ==> TouchesShard(tx.changes)
        decreases todo
      {
        var x :| x in todo;
        SizedPut(tx.changes, |pending.dirty| + |gone|, pending.elements, x, None);
        NotHeld(x);
        DeleteNext(s, tx.View(), held, gone, x);
        var removed := tx.Remove(Shard(x.d), x.k);
        TouchIn(tx.changes, x);
        gone, todo := gone + {x}, todo - {x};
      }
    }

    lemma NotHeld(x: Slab)
      requires Valid() && x in pending.deleted
      ensures x !in Held(pending.positions, pending.dirty)
    {
    }

    method StageDirty(tx: Transaction, ghost s: Store)
      requires Valid() && tx.Valid() && tx.changes == map[] && tx.View() == s
      modifies tx
      ensures tx.Valid() && (pending.dirty != [] ==> TouchesShard(tx.changes))
      ensures Flushed(s, tx.View(), Held(pending.positions, pending.dirty), {})
      ensures Sized(tx.changes, |pending.dirty|, pending.elements)
    {
      hide Elements, Bounded, Patched, Serialize, Sized, Written, TouchesShard;
      NothingWritten(s, pending.positions, pending.dirty);
      NoElements(pending.dirty);
      var i := 0;
      while i < |pending.dirty|
        invariant 0 <= i <= |pending.dirty| && tx.Valid() && Written(s, tx.View(), pending.positions, pending.dirty, i)
        invariant Sized(tx.changes, i, Elements(pending.dirty[..i])) && (i > 0 ==> TouchesShard(tx.changes))
      {
        var (x, v) := pending.dirty[i];
        ElementsUpTo(pending.dirty, i);
        WithinLimit(i);
        SizedPut(tx.changes, i, Elements(pending.dirty[..i]), x, Some(v));
        WriteNext(s, tx.View(), pending.positions, pending.dirty, i);
        var put := tx.Put(Shard(x.d), x.k, Serialize(v));
        TouchIn(tx.changes, x);
        i := i + 1;
      }
      assert pending.dirty[..i] == pending.dirty;
      AllWritten(s, tx.View(), pending.positions, pending.dirty);
    }

    lemma WithinLimit(i: nat)
      requires Valid() && i < |pending.dirty|
      ensures |pending.dirty[i].1| <= MAX_VALUE_ELEMENTS
    {
      var x := pending.dirty[i].0;
      assert x in Held(pending.positions, pending.dirty);
    }
  }

  lemma NoElements(dirty: seq<(Slab, Fields)>)
    ensures Elements(dirty[..0]) == 0
  {
  }
}
