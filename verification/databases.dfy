// The transaction boundary: an overlay on the engine, a commit with three outcomes, and a latch
// that stays shut after an unknown one until the database is reopened.
module Databases {
  import opened Wrappers
  import opened Bytes
  import opened Sorting
  import opened Stores
  import opened Scans

  const LAST_COMMIT := Ascii("last_commit")
  const LAST_TRANSACTION := Ascii("last_transaction")
  const COMMIT_MARKER := Slot(Metadata, LAST_COMMIT)
  const TRANSACTION_MARKER := Slot(Metadata, LAST_TRANSACTION)

  // The room the two markers take: 11 + 32 and 16 + 32 bytes.
  const MARKER_BYTES := 91

  // ---------------------------------------------------------------- accounting

  function Weight(x: Slot, v: Option<seq<byte>>): nat
  {
    |x.key| + (match v case None => 0 case Some(b) => |b|)
  }

  ghost function TotalBytes(c: Changes): nat
  {
    if c == map[] then 0
    else
      var x :| x in c;
      Weight(x, c[x]) + TotalBytes(c - {x})
  }

  lemma {:induction false} TotalAt(c: Changes, x: Slot)
    requires x in c
    ensures TotalBytes(c) == Weight(x, c[x]) + TotalBytes(c - {x})
    decreases |c|
  {
    var y :| y in c && TotalBytes(c) == Weight(y, c[y]) + TotalBytes(c - {y});
    if y != x {
      TotalAt(c - {y}, x);
      TotalAt(c - {x}, y);
      assert c - {y} - {x} == c - {x} - {y};
    }
  }

  // Staging a value replaces the weight of what it overwrites.
  lemma TotalPut(c: Changes, x: Slot, v: Option<seq<byte>>)
    ensures TotalBytes(c[x := v]) == TotalBytes(c) - (if x in c then Weight(x, c[x]) else 0) + Weight(x, v)
    ensures |c[x := v]| == if x in c then |c| else |c| + 1
  {
    hide TotalBytes;
    var d := c[x := v];
    TotalAt(d, x);
    if x in c {
      TotalAt(c, x);
      assert d - {x} == c - {x};
      assert d.Keys == c.Keys;
    } else {
      assert d - {x} == c;
      assert d.Keys == c.Keys + {x};
    }
  }

  // ---------------------------------------------------------------- one transaction

  // A bounded read of a store.
  function Read(s: Store, t: Table, k: seq<byte>, max: nat): Result<Option<seq<byte>>, StorageError>
  {
    if |k| > MAX_KEY_BYTES || max > MAX_BYTES_VALUE then Err(Limit)
    else
      match At(s, t, k)
      case None => Ok(None)
      case Some(v) => if |v| > max then Err(Limit) else Ok(Some(v))
  }

  lemma StagedView(s: Store, c: Changes, x: Slot, v: Option<seq<byte>>)
    ensures v.Some? ==> Patched(s, c[x := v]) == Patched(s, c)[x := v.value]
    ensures v.None? ==> Patched(s, c[x := v]) == Patched(s, c) - {x}
  {
  }

  lemma UnstagedRows(s: Store, c: Changes, t: Table)
    requires forall x :: x in c ==> x.table != t
    ensures RowsIn(Patched(s, c), t) == RowsIn(s, t)
  {
    forall k
      ensures k in RowsIn(Patched(s, c), t) <==> k in RowsIn(s, t)
      ensures k in RowsIn(s, t) ==> RowsIn(Patched(s, c), t)[k] == RowsIn(s, t)[k]
    {
      RowsInAt(s, t, k);
      RowsInAt(Patched(s, c), t, k);
    }
  }

  // A staged set that leaves room for the markers.
  ghost predicate Bounded(c: Changes)
  {
    WellSized(c) && |c| <= MAX_TRANSACTION_KEYS - 2 && TotalBytes(c) <= MAX_TRANSACTION_BYTES - MARKER_BYTES
  }

  class Transaction {
    const store: Store
    var changes: Changes
    var bytes: nat

    ghost predicate Valid()
      reads this
    {
      Bounded(changes) && bytes == TotalBytes(changes)
    }

    // What is left of both budgets covers this many writes of this many bytes.
    ghost predicate Room(keys: nat, size: nat)
      reads this
    {
      |changes| + keys <= MAX_TRANSACTION_KEYS - 2 && bytes + size <= MAX_TRANSACTION_BYTES - MARKER_BYTES
    }

    // What the transaction sees.
    ghost function View(): Store
      reads this
    {
      Patched(store, changes)
    }

    constructor (store: Store)
      ensures Valid() && this.store == store && changes == map[] && View() == store
    {
      this.store, changes, bytes := store, map[], 0;
    }

    // Staged values first, then the engine.
    method Get(t: Table, k: seq<byte>, max: nat) returns (r: Result<Option<seq<byte>>, StorageError>)
      requires Valid()
      ensures r == Read(View(), t, k, max)
    {
      PatchedAt(store, changes, t, k);
      if |k| > MAX_KEY_BYTES || max > MAX_BYTES_VALUE {
        return Err(Limit);
      }
      if Slot(t, k) in changes {
        var v := changes[Slot(t, k)];
        if v.Some? && |v.value| > max {
          return Err(Limit);
        }
        return Ok(v);
      }
      if Slot(t, k) in store {
        if |store[Slot(t, k)]| > max {
          return Err(Limit);
        }
        return Ok(Some(store[Slot(t, k)]));
      }
      r := Ok(None);
    }

    // Stage one write, or change nothing. It is taken exactly when the result stays bounded.
    method Stage(t: Table, k: seq<byte>, v: Option<seq<byte>>) returns (r: Result<(), StorageError>)
      requires Valid()
      modifies this
      ensures Valid()
      ensures r.Ok? <==> Bounded(old(changes)[Slot(t, k) := v])
      ensures var next := old(changes)[Slot(t, k) := v];
              r.Ok? <==> |k| <= 64 && (v.Some? ==> |v.value| <= 16_777_217) && |next| <= 149_998 && TotalBytes(next) <= 33_554_341
      ensures Fits(k, v) && old(Room(1, Weight(Slot(t, k), v))) ==> r.Ok?
      ensures r.Err? ==> r.error == Limit
      ensures changes == if r.Ok? then old(changes)[Slot(t, k) := v] else old(changes)
      ensures |changes| <= |old(changes)| + 1 && bytes <= old(bytes) + Weight(Slot(t, k), v)
    {
      var x := Slot(t, k);
      TotalPut(changes, x, v);
      var previous := x in changes;
      ghost var next := changes[x := v];
      assert WellSized(next) <==> Fits(k, v) by {
        assert x in next && next[x] == v;
      }
      if |k| > MAX_KEY_BYTES || (v.Some? && |v.value| > MAX_BYTES_VALUE) {
        return Err(Limit);
      }
      if !previous && |changes| >= MAX_TRANSACTION_KEYS - 2 {
        return Err(Limit);
      }
      if previous {
        TotalAt(changes, x);
      }
      var replaced := if previous then Weight(x, changes[x]) else 0;
      var total := bytes - replaced + |k| + (if v.Some? then |v.value| else 0);
      if total > MAX_TRANSACTION_BYTES - MARKER_BYTES {
        return Err(Limit);
      }
      changes := changes[x := v];
      bytes := total;
      r := Ok(());
    }

    method Put(t: Table, k: seq<byte>, v: seq<byte>) returns (r: Result<(), StorageError>)
      requires Valid()
      modifies this
      ensures Valid() && (r.Err? ==> r.error == Limit && View() == old(View()))
      ensures r.Ok? <==> Bounded(old(changes)[Slot(t, k) := Some(v)])
      ensures |k| <= MAX_KEY_BYTES && |v| <= MAX_BYTES_VALUE && old(Room(1, |k| + |v|)) ==> r.Ok?
      ensures |changes| <= |old(changes)| + 1 && bytes <= old(bytes) + |k| + |v|
      ensures r.Ok? ==> View() == old(View())[Slot(t, k) := v] && changes == old(changes)[Slot(t, k) := Some(v)]
    {
      hide Patched, Bounded;
      StagedView(store, changes, Slot(t, k), Some(v));
      r := Stage(t, k, Some(v));
    }

    method Remove(t: Table, k: seq<byte>) returns (r: Result<(), StorageError>)
      requires Valid()
      modifies this
      ensures Valid() && (r.Err? ==> r.error == Limit && View() == old(View()))
      ensures r.Ok? <==> Bounded(old(changes)[Slot(t, k) := None])
      ensures |k| <= MAX_KEY_BYTES && old(Room(1, |k|)) ==> r.Ok?
      ensures |changes| <= |old(changes)| + 1 && bytes <= old(bytes) + |k|
      ensures r.Ok? ==> View() == old(View()) - {Slot(t, k)} && changes == old(changes)[Slot(t, k) := None]
    {
      hide Patched, Bounded;
      StagedView(store, changes, Slot(t, k), None);
      r := Stage(t, k, None);
    }

    // A scan sees only the engine, so it refuses a table with staged writes.
    method ScanTable(t: Table, after: Option<seq<byte>>, prefix: seq<byte>, limits: Limits) returns (r: Result<seq<RawEntry>, StorageError>)
      requires Valid()
      ensures r.Ok? ==> ScanShape(after, prefix, limits) && IsPage(RowsIn(View(), t), KeysAfter(RowsIn(View(), t), after, prefix), limits, r.value)
      ensures r.Err? ==>
        || !ScanShape(after, prefix, limits) || (exists x :: x in changes && x.table == t)
        || exists k :: k in RowsIn(store, t) && Wanted(k, after, prefix) && !RowFits(k, RowsIn(store, t)[k], limits)
      ensures (exists x :: x in changes && x.table == t) ==> r == Err(PendingWrites) || r == Err(Limit)
      ensures r.Ok? ==> 0 < limits.maxEntries <= 4096 && limits.maxBytes <= 33_554_432
                        && FirstThatFit(RowsIn(View(), t), after, prefix, limits, r.value)
    {
      hide FirstThatFit, IsPage, KeysAfter, Patched, Bounded, RowsIn, Wanted, RowFits;
      if limits.maxEntries == 0 || limits.maxEntries > 4096 || limits.maxBytes > MAX_TRANSACTION_BYTES {
        return Err(Limit);
      }
      if (after.Some? && |after.value| > MAX_KEY_BYTES) || |prefix| > MAX_KEY_BYTES {
        return Err(Limit);
      }
      if exists x :: x in changes && x.table == t {
        return Err(PendingWrites);
      }
      UnstagedRows(store, changes, t);
      r := Scan(RowsIn(store, t), after, prefix, limits);
    }
  }

  predicate ScanShape(after: Option<seq<byte>>, prefix: seq<byte>, limits: Limits)
  {
    && 0 < limits.maxEntries <= 4096 && limits.maxBytes <= MAX_TRANSACTION_BYTES
    && (after.Some? ==> |after.value| <= MAX_KEY_BYTES) && |prefix| <= MAX_KEY_BYTES
  }

  // ---------------------------------------------------------------- committing

  // How the engine's commit ends: durably, refused before any effect, or unknown.
  datatype Outcome = Clean | Failed | Lost(applied: bool)

  predicate TouchesShard(c: Changes)
  {
    exists x :: x in c && x.table.Shard?
  }

  // The changes with the automatic markers.
  function Marked(c: Changes, id: Key): Changes
  {
    (if TouchesShard(c) then c[COMMIT_MARKER := Some(id)] else c)[TRANSACTION_MARKER := Some(id)]
  }

  // Both markers end up with the identity, the commit marker for a change of the shards alone; every
  // other slot with what was staged for it, or what it held.
  lemma MarkersStand(s: Store, c: Changes, id: Key)
    ensures var v := Patched(s, Marked(c, id));
            var first, last := Slot(Metadata, Ascii("last_commit")), Slot(Metadata, Ascii("last_transaction"));
            var shard := exists x :: x in c && x.table.Shard?;
            forall x :: (if x in v then Some(v[x]) else None) ==
              if x == last || (x == first && shard) then Some(id)
              else if x in c then c[x] else if x in s then Some(s[x]) else None
  {
    hide Ascii;
    MarkersApart();
  }

  lemma MarkersApart()
    ensures Ascii("last_commit") != Ascii("last_transaction")
  {
    assert |Ascii("last_commit")| == 11;
  }

  // A bounded set stays within the transaction limits, markers included.
  lemma MarkersFit(c: Changes, id: Key)
    requires Bounded(c)
    ensures |Marked(c, id)| <= MAX_TRANSACTION_KEYS && TotalBytes(Marked(c, id)) <= MAX_TRANSACTION_BYTES
  {
    var d := if TouchesShard(c) then c[COMMIT_MARKER := Some(id)] else c;
    if TouchesShard(c) {
      TotalPut(c, COMMIT_MARKER, Some(id));
    }
    TotalPut(d, TRANSACTION_MARKER, Some(id));
  }

  ghost function ChangeId(hash: seq<byte> -> Key, c: Changes): Key
  {
    hash(Preimage(c))
  }

  lemma NextRow(c: Changes, xs: seq<Slot>, i: nat)
    requires i < |xs| && forall x :: x in xs ==> x in c
    ensures RowsOf(c, xs[i..]) == Row(xs[i], c[xs[i]]) + RowsOf(c, xs[i + 1..])
  {
    assert xs[i..][1..] == xs[i + 1..];
  }

  // The rows are fed to the hasher in order of table name, then key.
  method ComputeChangeId(hash: seq<byte> -> Key, c: Changes) returns (id: Key)
    ensures id == ChangeId(hash, c)
  {
    hide Row, StrictTotal, Ascii, SlotBefore;
    SlotOrderTotal();
    SortedFacts(SlotOrder(), c.Keys);
    var ordered := Sort(SlotOrder(), c.Keys);
    var rows := HashRows(c, ordered);
    id := hash(Ascii("bbg/database-batch/v1") + [0] + rows);
  }

  method HashRows(c: Changes, ordered: seq<Slot>) returns (bytes: seq<byte>)
    requires forall x :: x in ordered ==> x in c
    ensures bytes == RowsOf(c, ordered)
  {
    hide Row;
    bytes := [];
    var i := 0;
    while i < |ordered|
      invariant 0 <= i <= |ordered| && bytes + RowsOf(c, ordered[i..]) == RowsOf(c, ordered)
    {
      NextRow(c, ordered, i);
      assert bytes + RowsOf(c, ordered[i..]) == (bytes + Row(ordered[i], c[ordered[i]])) + RowsOf(c, ordered[i + 1..]);
      bytes := bytes + Row(ordered[i], c[ordered[i]]);
      i := i + 1;
    }
    assert bytes == bytes + RowsOf(c, ordered[i..]);
  }

  // The store after a commit that took effect.
  ghost function Committed(hash: seq<byte> -> Key, s: Store, c: Changes): Store
  {
    if c == map[] then s else Patched(s, Marked(c, ChangeId(hash, c)))
  }

  function LastTransaction(s: Store): Option<seq<byte>>
  {
    At(s, Metadata, LAST_TRANSACTION)
  }

  class Database {
    const hash: seq<byte> -> Key
    var store: Store
    var failure: Option<StorageError>
    var poisoned: bool

    ghost predicate Valid()
      reads this
    {
      poisoned == failure.Some?
    }

    constructor (hash: seq<byte> -> Key, store: Store)
      ensures Valid() && this.hash == hash && this.store == store && failure == None
    {
      this.hash, this.store, failure, poisoned := hash, store, None, false;
    }

    // Closing the owner and opening it again: the engine's rows are all that is left.
    method Reopen()
      modifies this
      ensures Valid() && store == old(store) && failure == None
    {
      failure, poisoned := None, false;
    }

    // Nothing runs behind an unknown commit.
    method Begin() returns (r: Result<Transaction, StorageError>)
      requires Valid()
      ensures r.Err? <==> failure.Some?
      ensures r.Err? ==> Some(r.error) == failure
      ensures r.Ok? ==> fresh(r.value) && r.value.Valid() && r.value.store == store && r.value.changes == map[] && r.value.View() == store
    {
      if failure.Some? {
        return Err(failure.value);
      }
      var tx := new Transaction(store);
      r := Ok(tx);
    }

    // Commit what the transaction staged; the outcome is the engine's.
    method Finish(tx: Transaction, outcome: Outcome) returns (r: Result<Option<Key>, StorageError>)
      requires Valid() && failure == None && tx.Valid() && tx.store == store
      modifies this
      ensures Valid() && Machine(store, failure) == Step(hash, Machine(old(store), None), Transact(tx.changes, outcome))
      ensures var c, id := tx.changes, ChangeId(hash, tx.changes);
        r == if c == map[] then Ok(None)
             else match outcome
                  case Clean => Ok(Some(id))
                  case Failed => Err(Io)
                  case Lost(_) => Err(CommitUnknown(id))
      ensures failure == if tx.changes != map[] && outcome.Lost? then Some(CommitUnknown(ChangeId(hash, tx.changes))) else None
      ensures tx.changes == map[] || outcome == Failed || outcome == Lost(false) ==> store == old(store)
      ensures tx.changes != map[] && (outcome == Clean || outcome == Lost(true)) ==>
        var c, id := tx.changes, ChangeId(hash, tx.changes);
        var first, last := Slot(Metadata, Ascii("last_commit")), Slot(Metadata, Ascii("last_transaction"));
        var shard := exists x :: x in c && x.table.Shard?;
        forall x :: (if x in store then Some(store[x]) else None) ==
          if x == last || (x == first && shard) then Some(id)
          else if x in c then c[x] else if x in old(store) then Some(old(store)[x]) else None
    {
      ghost var before := store;
      if tx.changes == map[] {
        return Ok(None);
      }
      var id := ComputeChangeId(hash, tx.changes);
      var changes := Marked(tx.changes, id);
      if outcome.Failed? {
        return Err(Io);
      }
      if outcome.Clean? || outcome.applied {
        store := Patched(store, changes);
        MarkersStand(before, tx.changes, id);
      }
      if outcome.Lost? {
        failure, poisoned := Some(CommitUnknown(id)), true;
        return Err(CommitUnknown(id));
      }
      r := Ok(Some(id));
    }
  }

  // A read-only transaction of one read.
  method ReadRow(db: Database, t: Table, k: seq<byte>, max: nat) returns (r: Result<Option<seq<byte>>, StorageError>)
    requires db.Valid()
    ensures r == if db.failure.Some? then Err(db.failure.value) else Read(db.store, t, k, max)
  {
    hide Bounded;
    var begun := db.Begin();
    if begun.Err? {
      return Err(begun.error);
    }
    r := begun.value.Get(t, k, max);
  }

  // A read-only transaction of one scan.
  method ScanRows(db: Database, t: Table, after: Option<seq<byte>>, prefix: seq<byte>, limits: Limits) returns (r: Result<seq<RawEntry>, StorageError>)
    requires db.Valid()
    ensures r.Ok? ==>
      ScanShape(after, prefix, limits) && IsPage(RowsIn(db.store, t), KeysAfter(RowsIn(db.store, t), after, prefix), limits, r.value)
    ensures db.failure.None? && ScanShape(after, prefix, limits)
            && (forall k :: k in RowsIn(db.store, t) && Wanted(k, after, prefix) ==> RowFits(k, RowsIn(db.store, t)[k], limits))
            ==> r.Ok?
  {
    hide Bounded, IsPage, KeysAfter, Wanted, RowFits, RowsIn;
    var begun := db.Begin();
    if begun.Err? {
      return Err(begun.error);
    }
    r := begun.value.ScanTable(t, after, prefix, limits);
  }

  // ---------------------------------------------------------------- runs with crashes

  datatype Machine = Machine(store: Store, failure: Option<StorageError>)

  datatype Event = Transact(changes: Changes, outcome: Outcome) | Reopen

  ghost function Step(hash: seq<byte> -> Key, m: Machine, e: Event): Machine
  {
    match e
    case Reopen => m.(failure := None)
    case Transact(c, outcome) =>
      if m.failure.Some? || c == map[] then m
      else match outcome
           case Clean => m.(store := Committed(hash, m.store, c))
           case Failed => m
           case Lost(applied) =>
             Machine(if applied then Committed(hash, m.store, c) else m.store, Some(CommitUnknown(ChangeId(hash, c))))
  }

  ghost function Run(hash: seq<byte> -> Key, m: Machine, events: seq<Event>): Machine
  {
    if events == [] then m else Step(hash, Run(hash, m, events[..|events| - 1]), events[|events| - 1])
  }

  // hash tells these inputs apart.
  ghost predicate CollisionFree(hash: seq<byte> -> Key, inputs: set<seq<byte>>)
  {
    forall a, b :: a in inputs && b in inputs && hash(a) == hash(b) ==> a == b
  }

  // The change sets of a run are bounded and hash to distinct identities.
  ghost predicate Covered(e: Event, inputs: set<seq<byte>>)
  {
    e.Transact? ==> WellSized(e.changes) && Preimage(e.changes) in inputs
  }

  // A store whose last transaction is a change set already holds that change set.
  ghost predicate Stamped(hash: seq<byte> -> Key, s: Store, inputs: set<seq<byte>>)
  {
    forall c :: WellSized(c) && c != map[] && Preimage(c) in inputs && LastTransaction(s) == Some(ChangeId(hash, c)) ==>
      Committed(hash, s, c) == s
  }

  lemma CommitStamps(hash: seq<byte> -> Key, s: Store, c: Changes)
    requires c != map[]
    ensures LastTransaction(Committed(hash, s, c)) == Some(ChangeId(hash, c))
    ensures Committed(hash, Committed(hash, s, c), c) == Committed(hash, s, c)
  {
    PatchedAt(s, Marked(c, ChangeId(hash, c)), Metadata, LAST_TRANSACTION);
  }

  lemma StepStamps(hash: seq<byte> -> Key, m: Machine, e: Event, inputs: set<seq<byte>>)
    requires CollisionFree(hash, inputs) && Covered(e, inputs) && Stamped(hash, m.store, inputs)
    ensures Stamped(hash, Step(hash, m, e).store, inputs)
  {
    hide Committed, Preimage, WellSized;
    var s := Step(hash, m, e).store;
    if s != m.store {
      CommitStamps(hash, m.store, e.changes);
      forall c | WellSized(c) && c != map[] && Preimage(c) in inputs && LastTransaction(s) == Some(ChangeId(hash, c))
        ensures Committed(hash, s, c) == s
      {
        PreimageInjective(c, e.changes);
      }
    }
  }

  lemma {:induction false} RunStamps(hash: seq<byte> -> Key, events: seq<Event>, inputs: set<seq<byte>>)
    requires CollisionFree(hash, inputs) && forall e :: e in events ==> Covered(e, inputs)
    ensures Stamped(hash, Run(hash, Machine(map[], None), events).store, inputs)
  {
    hide Stamped, Covered;
    if events == [] {
      EmptyStamped(hash, inputs);
    } else {
      RunStamps(hash, events[..|events| - 1], inputs);
      StepStamps(hash, Run(hash, Machine(map[], None), events[..|events| - 1]), events[|events| - 1], inputs);
    }
  }

  lemma EmptyStamped(hash: seq<byte> -> Key, inputs: set<seq<byte>>)
    ensures Stamped(hash, map[], inputs)
  {
  }

  // Behind the latch nothing changes.
  lemma {:induction false} LatchHolds(hash: seq<byte> -> Key, m: Machine, later: seq<Event>)
    requires m.failure.Some? && forall e :: e in later ==> e.Transact?
    ensures Run(hash, m, later) == m
  {
    if later != [] {
      LatchHolds(hash, m, later[..|later| - 1]);
    }
  }

  // After an unknown commit of c, whatever is attempted before reopening: once reopened, the last
  // transaction is c's identity if and only if the store is the earlier one patched with c. That
  // holds even when the previous commit was the very same change set.
  lemma ReopenDecides(hash: seq<byte> -> Key, events: seq<Event>, c: Changes, applied: bool, later: seq<Event>, inputs: set<seq<byte>>)
    requires CollisionFree(hash, inputs) && forall e :: e in events ==> Covered(e, inputs)
    requires WellSized(c) && c != map[] && Preimage(c) in inputs
    requires Run(hash, Machine(map[], None), events).failure.None? && forall e :: e in later ==> e.Transact?
    ensures
      var m := Run(hash, Machine(map[], None), events);
      var lost := Run(hash, Step(hash, m, Transact(c, Lost(applied))), later);
      var reopened := Step(hash, lost, Reopen);
      && lost == Step(hash, m, Transact(c, Lost(applied))) && reopened.failure.None?
      && (LastTransaction(reopened.store) == Some(ChangeId(hash, c)) <==> reopened.store == Committed(hash, m.store, c))
  {
    hide Committed, Preimage;
    var m := Run(hash, Machine(map[], None), events);
    RunStamps(hash, events, inputs);
    LatchHolds(hash, Step(hash, m, Transact(c, Lost(applied))), later);
    CommitStamps(hash, m.store, c);
  }
}
