// The summary an inspection returns: exact totals, and a digest of the rows that binds them.
module Summaries {
  import opened Wrappers
  import opened Bytes
  import opened Integers
  import opened Sorting
  import opened Stores
  import opened Scans
  import opened Databases
  import opened Applications
  import opened Histories
  import opened Links
  import opened Validation
  import opened Transfers
  import opened Archives

  const MAX_INSPECTION_ROWS := 1_000_000
  const MAX_INSPECTION_BYTES := 8 * 1024 * 1024 * 1024

  datatype Summary = Summary(rows: nat, bytes: nat, tables: seq<nat>, digest: Key)

  // ---------------------------------------------------------------- the hashed rows

  // Each row as a length-prefixed key and a length-prefixed value.
  function RowsStream(rows: seq<RawEntry>): seq<byte>
  {
    if rows == [] then [] else Prefixed(rows[0].0) + (Prefixed(rows[0].1) + RowsStream(rows[1..]))
  }

  lemma {:induction false} StreamSnoc(rows: seq<RawEntry>, n: nat)
    requires n < |rows|
    ensures RowsStream(rows[..n + 1]) == RowsStream(rows[..n]) + Prefixed(rows[n].0) + Prefixed(rows[n].1)
  {
    hide Prefixed;
    if n == 0 {
      assert rows[..1][1..] == [] && rows[..0] == [];
      assert RowsStream(rows[..1]) == Prefixed(rows[0].0) + (Prefixed(rows[0].1) + []);
    } else {
      StreamSnoc(rows[1..], n - 1);
      assert rows[..n + 1][1..] == rows[1..][..n] && rows[..n][1..] == rows[1..][..n - 1];
      Assoc(Prefixed(rows[0].0), Prefixed(rows[0].1), RowsStream(rows[1..][..n - 1]), Prefixed(rows[n].0), Prefixed(rows[n].1));
    }
  }

  lemma Assoc(a: seq<byte>, b: seq<byte>, c: seq<byte>, d: seq<byte>, e: seq<byte>)
    ensures a + (b + (c + d + e)) == (a + (b + c)) + d + e
  {
  }

  // The rows of a table, in key order.
  ghost function TableRows(s: Store, t: Table): (rows: seq<RawEntry>)
    ensures |rows| == |Keys(s, t)|
    ensures forall i :: 0 <= i < |rows| ==> rows[i].0 == Keys(s, t)[i] && At(s, t, rows[i].0) == Some(rows[i].1)
  {
    KeysFacts(s, t);
    var keys := Keys(s, t);
    assert forall i :: 0 <= i < |keys| ==> keys[i] in keys;
    seq(|keys|, i requires 0 <= i < |keys| => (keys[i], At(s, t, keys[i]).value))
  }

  // What has been hashed before table t: a tag, then each table's ordinal and rows.
  ghost function Stream(s: Store, t: nat): seq<byte>
    requires t <= 5
  {
    if t == 0 then Ascii("bbg/application-archive-rows/1") + [0]
    else Stream(s, t - 1) + [t - 1] + RowsStream(TableRows(s, TableAt(t - 1)))
  }

  ghost function Counts(s: Store): seq<nat>
  {
    seq(5, u requires 0 <= u < 5 => |Keys(s, TableAt(u))|)
  }

  ghost function SummaryOf(hash: seq<byte> -> Key, s: Store): Summary
  {
    Summary(RowsBefore(s, 5), BytesBefore(s, 5), Counts(s), hash(Stream(s, 5)))
  }

  // ---------------------------------------------------------------- counting a table

  // Every row of a table has its shape, and content is what its owner accepts.
  ghost predicate TableOk(s: Store, t: Table, contentOk: (seq<byte>, seq<byte>) -> bool)
  {
    forall k :: At(s, t, k).Some? ==> RowOk(t, k, At(s, t, k).value, contentOk)
  }

  predicate RowOk(t: Table, k: seq<byte>, v: seq<byte>, contentOk: (seq<byte>, seq<byte>) -> bool)
  {
    RecordShape(t, k, v) && (t == Content ==> contentOk(k, v))
  }

  datatype Tally = Tally(rows: nat, bytes: nat, tables: seq<nat>, stream: seq<byte>)

  // Everything before table t is counted, and p rows of it.
  ghost predicate Tallied(s: Store, tally: Tally, t: nat, p: nat)
    requires t < 5 && p <= |Keys(s, TableAt(t))|
  {
    && tally.rows == RowsBefore(s, t) + p && tally.bytes == BytesBefore(s, t) + SizeUpTo(s, TableAt(t), p)
    && tally.tables == Counts(s)[..t] + [p]
    && tally.stream == Stream(s, t) + [t] + RowsStream(TableRows(s, TableAt(t))[..p])
  }

  ghost predicate TalliedAll(s: Store, tally: Tally, t: nat)
    requires t <= 5
  {
    tally == Tally(RowsBefore(s, t), BytesBefore(s, t), Counts(s)[..t], Stream(s, t))
  }

  lemma TallyStart(s: Store, tally: Tally, t: nat)
    requires t < 5 && TalliedAll(s, tally, t)
    ensures Tallied(s, tally.(tables := tally.tables + [0], stream := tally.stream + [t]), t, 0)
  {
    hide Keys, Prefixed;
    assert RowsStream(TableRows(s, TableAt(t))[..0]) == [];
    assert tally.stream + [t] + [] == tally.stream + [t];
  }

  lemma TallyEnd(s: Store, tally: Tally, t: nat)
    requires t < 5 && Tallied(s, tally, t, |Keys(s, TableAt(t))|)
    ensures TalliedAll(s, tally, t + 1)
  {
    hide Keys, Prefixed, RowsStream;
    var rows := TableRows(s, TableAt(t));
    assert rows[..|rows|] == rows;
    assert Counts(s)[..t + 1] == Counts(s)[..t] + [Counts(s)[t]];
  }

  function CountRow(tally: Tally, t: nat, k: seq<byte>, v: seq<byte>): Tally
    requires |tally.tables| == t + 1
  {
    Tally(tally.rows + 1, tally.bytes + |k| + |v|, tally.tables[t := tally.tables[t] + 1], tally.stream + Prefixed(k) + Prefixed(v))
  }

  lemma TallyNext(s: Store, tally: Tally, t: nat, p: nat)
    requires t < 5 && p < |Keys(s, TableAt(t))| && Tallied(s, tally, t, p)
    ensures |tally.tables| == t + 1
    ensures var row := TableRows(s, TableAt(t))[p]; Tallied(s, CountRow(tally, t, row.0, row.1), t, p + 1)
    ensures tally.rows + 1 <= RowsBefore(s, t + 1)
  {
    hide Keys, Prefixed, RowsStream, Stream;
    var rows := TableRows(s, TableAt(t));
    StreamSnoc(rows, p);
    Assoc4(Stream(s, t) + [t], RowsStream(rows[..p]), Prefixed(rows[p].0), Prefixed(rows[p].1));
    assert rows[p].0 == Keys(s, TableAt(t))[p];
  }

  lemma Assoc4(a: seq<byte>, b: seq<byte>, c: seq<byte>, d: seq<byte>)
    ensures a + b + c + d == a + (b + c + d)
  {
  }

  // The sizes of a table's rows only add up.
  lemma {:induction false} SizeGrows(s: Store, t: Table, n: nat, m: nat)
    requires n <= m <= |Keys(s, t)|
    ensures SizeUpTo(s, t, n) <= SizeUpTo(s, t, m)
    decreases m
  {
    hide Keys;
    if n < m {
      SizeGrows(s, t, n, m - 1);
    }
  }

  // One row: the limits, its shape and content, the totals, the hash.
  method CountOne(ghost s: Store, t: nat, before: Tally, k: seq<byte>, v: seq<byte>, maxRows: nat, maxBytes: nat,
                  contentOk: (seq<byte>, seq<byte>) -> bool, ghost p: nat) returns (r: Result<Tally, Error>)
    requires t < 5 && p < |Keys(s, TableAt(t))| && k == Keys(s, TableAt(t))[p] && At(s, TableAt(t), k) == Some(v)
    requires Tallied(s, before, t, p)
    ensures r.Ok? ==> Tallied(s, r.value, t, p + 1) && TallyWithin(r.value, maxRows, maxBytes) && RowOk(TableAt(t), k, v, contentOk)
    ensures RowsBefore(s, t + 1) <= maxRows && BytesBefore(s, t + 1) <= maxBytes && RowOk(TableAt(t), k, v, contentOk) ==> r.Ok?
  {
    hide Keys, RecordShape, Tallied, CountRow, RowsBefore, BytesBefore;
    assert TableRows(s, TableAt(t))[p] == (k, v);
    TallyNext(s, before, t, p);
    var tally := CountRow(before, t, k, v);
    TallyBounds(s, tally, t, p + 1);
    if tally.rows > maxRows || tally.bytes > maxBytes {
      return Err(Limited);
    }
    if !RecordShape(TableAt(t), k, v) || (TableAt(t) == Content && !contentOk(k, v)) {
      return Err(Corrupted);
    }
    r := Ok(tally);
  }

  // One table of the inspection, page by page.
  method CountTable(db: Database, t: nat, before: Tally, maxRows: nat, maxBytes: nat, contentOk: (seq<byte>, seq<byte>) -> bool)
    returns (r: Result<Tally, Error>)
    requires db.Valid() && t < 5 && TalliedAll(db.store, before, t)
    ensures r.Ok? ==> TalliedAll(db.store, r.value, t + 1) && TableOk(db.store, TableAt(t), contentOk)
    ensures r.Ok? && RowsBefore(db.store, t) <= maxRows && BytesBefore(db.store, t) <= maxBytes ==>
              RowsBefore(db.store, t + 1) <= maxRows && BytesBefore(db.store, t + 1) <= maxBytes
    ensures (&& db.failure.None? && TableFits(db.store, TableAt(t), PAGE) && TableOk(db.store, TableAt(t), contentOk)
             && RowsBefore(db.store, t + 1) <= maxRows && BytesBefore(db.store, t + 1) <= maxBytes) ==> r.Ok?
  {
    hide Keys, RowsIn, CursorAt, TableFits, RowOk, Tallied, TalliedAll, TableAt, TableOk, RowsBefore, BytesBefore;
    ghost var s, keys := db.store, Keys(db.store, TableAt(t));
    StartOf(s, TableAt(t));
    TallyStart(s, before, t);
    TallyTotals(s, before, t);
    var tally := before.(tables := before.tables + [0], stream := before.stream + [t]);
    ghost var p := 0;
    var after: Option<seq<byte>> := None;
    while true
      invariant CursorAt(s, TableAt(t), after, p) && p <= |keys| && Tallied(s, tally, t, p)
      invariant forall i :: 0 <= i < p ==> RowAtOk(s, TableAt(t), keys[i], contentOk)
      invariant RowsBefore(s, t) <= maxRows && BytesBefore(s, t) <= maxBytes ==> TallyWithin(tally, maxRows, maxBytes)
      decreases |keys| - p
    {
      var page := NextPage(db, TableAt(t), PAGE, after, s, p);
      if page.Err? {
        return Err(page.error);
      }
      if page.value == [] {
        TallyEnd(s, tally, t);
        TallyTotals(s, tally, t + 1);
        AllRows(s, TableAt(t), contentOk);
        return Ok(tally);
      }
      var i := 0;
      while i < |page.value|
        invariant 0 <= i <= |page.value| && Tallied(s, tally, t, p + i)
        invariant forall j :: 0 <= j < p + i ==> RowAtOk(s, TableAt(t), keys[j], contentOk)
        invariant RowsBefore(s, t) <= maxRows && BytesBefore(s, t) <= maxBytes ==> TallyWithin(tally, maxRows, maxBytes)
      {
        assert page.value[i].0 == keys[p + i];
        AnyRow(s, TableAt(t), p + i, contentOk);
        var counted := CountOne(s, t, tally, page.value[i].0, page.value[i].1, maxRows, maxBytes, contentOk, p + i);
        if counted.Err? {
          return counted;
        }
        tally := counted.value;
        i := i + 1;
      }
      after := Some(page.value[|page.value| - 1].0);
      p := p + |page.value|;
    }
  }

  lemma AllRows(s: Store, t: Table, contentOk: (seq<byte>, seq<byte>) -> bool)
    requires forall i :: 0 <= i < |Keys(s, t)| ==> RowAtOk(s, t, Keys(s, t)[i], contentOk)
    ensures TableOk(s, t, contentOk)
  {
    hide Keys, RowOk;
    KeysFacts(s, t);
    forall k | At(s, t, k).Some?
      ensures RowOk(t, k, At(s, t, k).value, contentOk)
    {
      assert k in Keys(s, t);
    }
  }

  lemma AnyRow(s: Store, t: Table, n: nat, contentOk: (seq<byte>, seq<byte>) -> bool)
    requires n < |Keys(s, t)|
    ensures At(s, t, Keys(s, t)[n]).Some? && (TableOk(s, t, contentOk) ==> RowAtOk(s, t, Keys(s, t)[n], contentOk))
  {
    hide Keys, RowOk;
    KeysFacts(s, t);
    assert Keys(s, t)[n] in Keys(s, t);
  }

  predicate RowAtOk(s: Store, t: Table, k: seq<byte>, contentOk: (seq<byte>, seq<byte>) -> bool)
  {
    At(s, t, k).Some? && RowOk(t, k, At(s, t, k).value, contentOk)
  }

  predicate TallyWithin(tally: Tally, maxRows: nat, maxBytes: nat)
  {
    tally.rows <= maxRows && tally.bytes <= maxBytes
  }

  lemma TallyTotals(s: Store, tally: Tally, t: nat)
    requires t <= 5 && TalliedAll(s, tally, t)
    ensures tally.rows == RowsBefore(s, t) && tally.bytes == BytesBefore(s, t)
  {
  }

  lemma TallyBounds(s: Store, tally: Tally, t: nat, p: nat)
    requires t < 5 && p <= |Keys(s, TableAt(t))| && Tallied(s, tally, t, p)
    ensures tally.rows <= RowsBefore(s, t + 1) && tally.bytes <= BytesBefore(s, t + 1)
  {
    hide Keys;
    SizeGrows(s, TableAt(t), p, |Keys(s, TableAt(t))|);
  }

  // ---------------------------------------------------------------- inspection

  // Pages can hold every row of the archive.
  ghost predicate Readable(s: Store)
  {
    Fitting(s, PAGE) && forall t :: InTransfer(t) ==> TableFits(s, t, PAGE)
  }

  predicate LimitsShape(maxRows: nat, maxBytes: nat)
  {
    0 < maxRows <= MAX_INSPECTION_ROWS && 0 < maxBytes <= MAX_INSPECTION_BYTES
  }

  // What an inspection accepts: a coherent chain, well-shaped content and claims, all within the
  // limits, and no transaction since the archive was opened.
  ghost predicate Accepted(s: Store, maxRows: nat, maxBytes: nat, contentOk: (seq<byte>, seq<byte>) -> bool, opening: Option<Key>)
  {
    && LimitsShape(maxRows, maxBytes) && RowsBefore(s, 5) <= maxRows && BytesBefore(s, 5) <= maxBytes
    && TableOk(s, Content, contentOk) && TableOk(s, Claims, contentOk) && Coherent(s) && LastTransaction(s) == opening
  }

  lemma CoherentShapes(s: Store, contentOk: (seq<byte>, seq<byte>) -> bool)
    requires Coherent(s)
    ensures TableOk(s, Requests, contentOk) && TableOk(s, History, contentOk) && TableOk(s, Heads, contentOk)
  {
    hide Contiguous, EndsAtHead, ReceiptsMatch, DecodeHead, DecodeReceipt;
  }

  lemma {:induction false} TotalsGrow(s: Store, t: nat)
    requires t <= 5
    ensures RowsBefore(s, t) <= RowsBefore(s, 5) && BytesBefore(s, t) <= BytesBefore(s, 5)
    decreases 5 - t
  {
    hide Keys;
    if t < 5 {
      TotalsGrow(s, t + 1);
    }
  }

  // ---------------------------------------------------------------- the totals, without an order

  // The rows of the five tables, and those of the first n keys of one.
  ghost function Transferred(s: Store): Changes
  {
    map x | x in s && InTransfer(x.table) :: Some(s[x])
  }

  ghost function FirstRows(s: Store, t: Table, n: nat): Changes
    requires n <= |Keys(s, t)|
  {
    map x | x in s && x.table == t && x.key in Keys(s, t)[..n] :: Some(s[x])
  }

  lemma {:induction false} TotalJoin(a: Changes, b: Changes)
    requires a.Keys !! b.Keys
    ensures TotalBytes(a + b) == TotalBytes(a) + TotalBytes(b)
    decreases |b|
  {
    hide TotalBytes;
    if b == map[] {
      NoBytes();
      assert a + b == a;
    } else {
      var x :| x in b;
      JoinLess(a, b, x);
      TotalJoin(a, b - {x});
      TotalAt(b, x);
      TotalAt(a + b, x);
    }
  }

  lemma JoinLess(a: Changes, b: Changes, x: Slot)
    requires a.Keys !! b.Keys && x in b
    ensures a + b - {x} == a + (b - {x}) && x in a + b && (a + b)[x] == b[x]
    ensures a.Keys !! (b - {x}).Keys && |b - {x}| < |b|
  {
    assert |b - {x}| < |b| by {
      assert (b - {x}).Keys == b.Keys - {x};
      assert |b - {x}| == |(b - {x}).Keys| && |b| == |b.Keys|;
    }
  }

  lemma NoBytes()
    ensures TotalBytes(map[]) == 0
  {
  }

  lemma {:induction false} SizeIsTotal(s: Store, t: Table, n: nat)
    requires n <= |Keys(s, t)|
    ensures SizeUpTo(s, t, n) == TotalBytes(FirstRows(s, t, n))
  {
    hide Keys, TotalBytes, Ascends;
    if n == 0 {
      NoBytes();
      assert FirstRows(s, t, 0) == map[];
    } else {
      SizeIsTotal(s, t, n - 1);
      OneMore(s, t, n);
      TotalAt(FirstRows(s, t, n), Slot(t, Keys(s, t)[n - 1]));
    }
  }

  lemma OneMore(s: Store, t: Table, n: nat)
    requires 0 < n <= |Keys(s, t)|
    ensures var x := Slot(t, Keys(s, t)[n - 1]);
            x in FirstRows(s, t, n) && FirstRows(s, t, n) - {x} == FirstRows(s, t, n - 1)
  {
    hide Keys, Lt;
    KeysFacts(s, t);
    var keys := Keys(s, t);
    assert keys[n - 1] in keys && keys[..n] == keys[..n - 1] + [keys[n - 1]];
    forall i | 0 <= i < n - 1
      ensures keys[i] != keys[n - 1]
    {
      assert ByteOrder()(keys[i], keys[n - 1]);
      LtTotal(keys[i], keys[n - 1]);
    }
  }

  ghost function FirstTables(s: Store, t: nat): Changes
  {
    map x | x in s && ((t > 0 && x.table == Content) || (t > 1 && x.table == Claims) || (t > 2 && x.table == Requests)
                       || (t > 3 && x.table == History) || (t > 4 && x.table == Heads)) :: Some(s[x])
  }

  // All rows of one table.
  ghost function TableChanges(s: Store, t: Table): Changes
  {
    map x | x in s && x.table == t :: Some(s[x])
  }

  lemma {:induction false} BytesAreTotal(s: Store, t: nat)
    requires t <= 5
    ensures BytesBefore(s, t) == TotalBytes(FirstTables(s, t))
  {
    hide Keys, TotalBytes, FirstTables, SizeUpTo, TableChanges, FirstRows;
    if t == 0 {
      NoBytes();
      NoTables(s);
    } else {
      BytesAreTotal(s, t - 1);
      var table := TableAt(t - 1);
      SizeIsTotal(s, table, |Keys(s, table)|);
      WholeTable(s, table);
      TablesSplit(s, t);
      TotalJoin(FirstTables(s, t - 1), TableChanges(s, table));
    }
  }

  lemma NoTables(s: Store)
    ensures FirstTables(s, 0) == map[]
  {
  }

  lemma TablesSplit(s: Store, t: nat)
    requires 0 < t <= 5
    ensures FirstTables(s, t) == FirstTables(s, t - 1) + TableChanges(s, TableAt(t - 1))
    ensures FirstTables(s, t - 1).Keys !! TableChanges(s, TableAt(t - 1)).Keys
  {
    if t == 1 {
    } else if t == 2 {
    } else if t == 3 {
    } else if t == 4 {
    }
  }

  lemma WholeTable(s: Store, t: Table)
    ensures FirstRows(s, t, |Keys(s, t)|) == TableChanges(s, t)
  {
    hide Keys, Lt;
    KeysFacts(s, t);
    var keys := Keys(s, t);
    assert keys[..|keys|] == keys;
    forall x | x in s && x.table == t
      ensures x.key in keys
    {
      assert At(s, t, x.key).Some?;
    }
  }

  lemma KeyCount(s: Store, t: Table)
    ensures |Keys(s, t)| == |RowsIn(s, t)|
  {
    hide Wanted, Lt, RowsIn, StrictTotal;
    ByteOrderTotal();
    SortedFacts(ByteOrder(), WantedKeys(RowsIn(s, t), None, []));
    EveryKey(RowsIn(s, t));
  }

  lemma EveryKey(rows: Rows)
    ensures WantedKeys(rows, None, []) == rows.Keys && |rows.Keys| == |rows|
  {
  }

  // What an accepted inspection says of the archive, and asks of it.
  ghost predicate Reports(s: Store, y: Summary, maxRows: nat, maxBytes: nat, contentOk: (seq<byte>, seq<byte>) -> bool, opening: Option<Key>)
  {
    && y.tables == [|RowsIn(s, Content)|, |RowsIn(s, Claims)|, |RowsIn(s, Requests)|, |RowsIn(s, History)|, |RowsIn(s, Heads)|]
    && y.rows == y.tables[0] + y.tables[1] + y.tables[2] + y.tables[3] + y.tables[4] <= maxRows <= 1_000_000
    && y.bytes == TotalBytes(Transferred(s)) <= maxBytes <= 8_589_934_592
    && Chained(s) && At(s, Metadata, Ascii("last_transaction")) == opening
    && (forall k :: At(s, Content, k).Some? ==> |k| == 32 && contentOk(k, At(s, Content, k).value))
    && (forall k :: At(s, Claims, k).Some? ==> |k| == 32 && |At(s, Claims, k).value| == 32)
  }

  lemma AcceptedReports(hash: seq<byte> -> Key, s: Store, maxRows: nat, maxBytes: nat, contentOk: (seq<byte>, seq<byte>) -> bool, opening: Option<Key>)
    ensures Accepted(s, maxRows, maxBytes, contentOk, opening) ==> Reports(s, SummaryOf(hash, s), maxRows, maxBytes, contentOk, opening)
  {
    hide Chained, Coherent, Transferred, TotalBytes, RowsIn, TableOk, RowsBefore, BytesBefore, Counts, Stream;
    SummaryCounts(hash, s);
    ChainedExactly(s);
    OkRows(s, contentOk);
  }

  lemma OkRows(s: Store, contentOk: (seq<byte>, seq<byte>) -> bool)
    ensures TableOk(s, Content, contentOk) ==> forall k :: At(s, Content, k).Some? ==> |k| == 32 && contentOk(k, At(s, Content, k).value)
    ensures TableOk(s, Claims, contentOk) ==> forall k :: At(s, Claims, k).Some? ==> |k| == 32 && |At(s, Claims, k).value| == 32
  {
  }

  // What a summary counts: the rows of each table, their sum, and their bytes.
  lemma SummaryCounts(hash: seq<byte> -> Key, s: Store)
    ensures var y := SummaryOf(hash, s);
            && y.tables == [|RowsIn(s, Content)|, |RowsIn(s, Claims)|, |RowsIn(s, Requests)|, |RowsIn(s, History)|, |RowsIn(s, Heads)|]
            && y.rows == y.tables[0] + y.tables[1] + y.tables[2] + y.tables[3] + y.tables[4]
            && y.bytes == TotalBytes(Transferred(s))
  {
    hide Keys, TotalBytes, Stream, RowsIn, SizeUpTo;
    BytesAreTotal(s, 5);
    assert FirstTables(s, 5) == Transferred(s);
    forall t: Table
      ensures |Keys(s, t)| == |RowsIn(s, t)|
    {
      KeyCount(s, t);
    }
    RowsCounted(s);
  }

  lemma RowsCounted(s: Store)
    ensures RowsBefore(s, 5) == |Keys(s, Content)| + |Keys(s, Claims)| + |Keys(s, Requests)| + |Keys(s, History)| + |Keys(s, Heads)|
    ensures Counts(s) == [|Keys(s, Content)|, |Keys(s, Claims)|, |Keys(s, Requests)|, |Keys(s, History)|, |Keys(s, Heads)|]
  {
    hide Keys;
    assert RowsBefore(s, 1) == |Keys(s, Content)|;
    assert RowsBefore(s, 2) == RowsBefore(s, 1) + |Keys(s, Claims)|;
    assert RowsBefore(s, 3) == RowsBefore(s, 2) + |Keys(s, Requests)|;
    assert RowsBefore(s, 4) == RowsBefore(s, 3) + |Keys(s, History)|;
  }

  // inspect: five tables counted and checked, the chain, and the marker.
  method Inspect(db: Database, maxRows: nat, maxBytes: nat, contentOk: (seq<byte>, seq<byte>) -> bool, opening: Option<Key>)
    returns (r: Result<Summary, Error>)
    requires db.Valid()
    ensures r.Ok? ==> Accepted(db.store, maxRows, maxBytes, contentOk, opening) && r.value == SummaryOf(db.hash, db.store)
    ensures db.failure.None? && Readable(db.store) ==> (r.Ok? <==> Accepted(db.store, maxRows, maxBytes, contentOk, opening))
    ensures r.Ok? ==> Reports(db.store, r.value, maxRows, maxBytes, contentOk, opening)
  {
    hide Reports, Coherent, TableOk, Fitting, TableFits, Counts, Keys, Stream;
    ghost var s := db.store;
    if !LimitsShape(maxRows, maxBytes) {
      return Err(Limited);
    }
    var counted := CountTables(db, maxRows, maxBytes, contentOk);
    if counted.Err? {
      return Err(counted.error);
    }
    var linked := InspectLinks(db, PAGE);
    if linked.Err? {
      return Err(linked.error);
    }
    var marker := ReadRow(db, Metadata, LAST_TRANSACTION, 32);
    if marker.Err? {
      return Err(FromStorage(marker.error));
    }
    if marker.value != opening {
      return Err(Corrupted);
    }
    AcceptedReports(db.hash, s, maxRows, maxBytes, contentOk, opening);
    r := Ok(Summary(counted.value.rows, counted.value.bytes, counted.value.tables, db.hash(counted.value.stream)));
  }

  method CountTables(db: Database, maxRows: nat, maxBytes: nat, contentOk: (seq<byte>, seq<byte>) -> bool) returns (r: Result<Tally, Error>)
    requires db.Valid()
    ensures r.Ok? ==>
      && r.value == Tally(RowsBefore(db.store, 5), BytesBefore(db.store, 5), Counts(db.store), Stream(db.store, 5))
      && RowsBefore(db.store, 5) <= maxRows && BytesBefore(db.store, 5) <= maxBytes
      && TableOk(db.store, Content, contentOk) && TableOk(db.store, Claims, contentOk)
    ensures (&& db.failure.None? && Readable(db.store) && RowsBefore(db.store, 5) <= maxRows && BytesBefore(db.store, 5) <= maxBytes
             && TableOk(db.store, Content, contentOk) && TableOk(db.store, Claims, contentOk) && Coherent(db.store)) ==> r.Ok?
  {
    hide Coherent, TableOk, Fitting, TableFits, Keys;
    ghost var s := db.store;
    if Coherent(s) {
      CoherentShapes(s, contentOk);
    }
    var tally := Tally(0, 0, [], Ascii("bbg/application-archive-rows/1") + [0]);
    assert Counts(s)[..0] == [];
    var t := 0;
    while t < 5
      invariant 0 <= t <= 5 && TalliedAll(s, tally, t) && RowsBefore(s, t) <= maxRows && BytesBefore(s, t) <= maxBytes
      invariant forall u :: 0 <= u < t ==> TableOk(s, TableAt(u), contentOk)
    {
      TotalsGrow(s, t + 1);
      var counted := CountTable(db, t, tally, maxRows, maxBytes, contentOk);
      if counted.Err? {
        return counted;
      }
      tally := counted.value;
      t := t + 1;
    }
    assert TableAt(0) == Content && TableAt(1) == Claims;
    assert Counts(s)[..5] == Counts(s);
    r := Ok(tally);
  }

  // ---------------------------------------------------------------- the digest binds the rows

  // Every key has one of the log's lengths, and no length wraps.
  ghost predicate Shaped(s: Store)
  {
    forall t, k :: InTransfer(t) && At(s, t, k).Some? ==>
      (|k| == 32 || |k| == 40 || |k| == 64) && |At(s, t, k).value| < U64_BOUND
  }

  predicate RowsShaped(rows: seq<RawEntry>)
  {
    forall i :: 0 <= i < |rows| ==> (|rows[i].0| == 32 || |rows[i].0| == 40 || |rows[i].0| == 64) && |rows[i].1| < U64_BOUND
  }

  // What follows the rows of a table: nothing, or an ordinal, which no key length begins like.
  predicate Follows(a: seq<byte>)
  {
    a == [] || a[0] < 5
  }

  lemma PrefixedHead(k: seq<byte>, more: seq<byte>)
    requires |k| == 32 || |k| == 40 || |k| == 64
    ensures (Prefixed(k) + more)[0] as int == |k|
  {
  }

  lemma {:induction false} RowsBound(xs: seq<RawEntry>, a: seq<byte>, ys: seq<RawEntry>, b: seq<byte>)
    requires RowsShaped(xs) && RowsShaped(ys) && Follows(a) && Follows(b)
    requires RowsStream(xs) + a == RowsStream(ys) + b
    ensures xs == ys && a == b
  {
    hide Prefixed;
    if xs == [] || ys == [] {
      StartsBound(xs, a);
      StartsBound(ys, b);
    } else {
      var (k, v) := xs[0];
      var (l, w) := ys[0];
      var p, q := RowsStream(xs[1..]) + a, RowsStream(ys[1..]) + b;
      Regrouped(Prefixed(k), Prefixed(v), RowsStream(xs[1..]), a);
      Regrouped(Prefixed(l), Prefixed(w), RowsStream(ys[1..]), b);
      PrefixedApart(k, Prefixed(v) + p, l, Prefixed(w) + q);
      PrefixedApart(v, p, w, q);
      RowsBound(xs[1..], a, ys[1..], b);
      assert xs == [xs[0]] + xs[1..] && ys == [ys[0]] + ys[1..];
    }
  }

  // Rows begin like no ordinal.
  lemma StartsBound(xs: seq<RawEntry>, a: seq<byte>)
    requires RowsShaped(xs) && Follows(a)
    ensures xs == [] ==> RowsStream(xs) + a == a
    ensures xs != [] ==> RowsStream(xs) + a != [] && (RowsStream(xs) + a)[0] >= 32
  {
    hide Prefixed;
    if xs != [] {
      Regrouped(Prefixed(xs[0].0), Prefixed(xs[0].1), RowsStream(xs[1..]), a);
      PrefixedHead(xs[0].0, Prefixed(xs[0].1) + (RowsStream(xs[1..]) + a));
      PrefixedLong(xs[0].0);
    }
  }

  lemma PrefixedLong(k: seq<byte>)
    ensures |Prefixed(k)| >= 8
  {
  }

  lemma Regrouped(a: seq<byte>, b: seq<byte>, c: seq<byte>, d: seq<byte>)
    ensures (a + (b + c)) + d == a + (b + (c + d))
  {
  }

  // The stream from table t on.
  ghost function Tail(s: Store, t: nat): seq<byte>
    requires t <= 5
    decreases 5 - t
  {
    if t == 5 then [] else [t] + (RowsStream(TableRows(s, TableAt(t))) + Tail(s, t + 1))
  }

  lemma {:induction false} StreamSplits(s: Store, t: nat)
    requires t <= 5
    ensures Stream(s, 5) == Stream(s, t) + Tail(s, t)
    decreases 5 - t
  {
    hide RowsStream, TableRows;
    if t < 5 {
      StreamSplits(s, t + 1);
      SplitNext(Stream(s, t), t, RowsStream(TableRows(s, TableAt(t))), Tail(s, t + 1));
    }
  }

  lemma SplitNext(a: seq<byte>, b: byte, c: seq<byte>, d: seq<byte>)
    ensures (a + [b] + c) + d == a + ([b] + (c + d)) && ([b] + (c + d))[1..] == c + d
  {
  }

  // The rows of one table, and the rest, are read back from the stream.
  lemma TableBinds(s: Store, v: Store, t: nat)
    requires t < 5 && Shaped(s) && Shaped(v) && Tail(s, t) == Tail(v, t)
    ensures TableRows(s, TableAt(t)) == TableRows(v, TableAt(t)) && Tail(s, t + 1) == Tail(v, t + 1)
  {
    hide RowsStream, TableRows, Shaped, Keys, Follows;
    var xs, ys := TableRows(s, TableAt(t)), TableRows(v, TableAt(t));
    var a, b := Tail(s, t + 1), Tail(v, t + 1);
    ShapedRows(s, TableAt(t));
    ShapedRows(v, TableAt(t));
    SplitNext([], t, RowsStream(xs), a);
    SplitNext([], t, RowsStream(ys), b);
    TailBegins(s, t + 1);
    TailBegins(v, t + 1);
    RowsBound(xs, a, ys, b);
  }

  lemma {:induction false} TailsBind(s: Store, v: Store, t: nat)
    requires t <= 5 && Shaped(s) && Shaped(v) && Tail(s, t) == Tail(v, t)
    ensures forall u :: t <= u < 5 ==> TableRows(s, TableAt(u)) == TableRows(v, TableAt(u))
    decreases 5 - t
  {
    hide RowsStream, TableRows, Shaped, Keys, Tail;
    if t < 5 {
      TableBinds(s, v, t);
      TailsBind(s, v, t + 1);
    }
  }

  lemma TailBegins(s: Store, t: nat)
    requires t <= 5
    ensures Follows(Tail(s, t))
  {
    hide RowsStream, TableRows;
  }

  lemma ShapedRows(s: Store, t: Table)
    requires Shaped(s) && InTransfer(t)
    ensures RowsShaped(TableRows(s, t))
  {
    hide TableRows;
    var rows := TableRows(s, t);
    forall i | 0 <= i < |rows|
      ensures (|rows[i].0| == 32 || |rows[i].0| == 40 || |rows[i].0| == 64) && |rows[i].1| < U64_BOUND
    {
      assert At(s, t, rows[i].0) == Some(rows[i].1);
    }
  }

  // The rows of a table say what it holds.
  lemma RowsSay(s: Store, v: Store, t: Table)
    requires TableRows(s, t) == TableRows(v, t)
    ensures SameOn(s, v, t)
  {
    hide Keys, TableRows;
    KeysFacts(s, t);
    KeysFacts(v, t);
    var rows := TableRows(s, t);
    forall k
      ensures At(v, t, k) == At(s, t, k)
    {
      if At(s, t, k).Some? {
        assert k in Keys(s, t);
        var i :| 0 <= i < |rows| && Keys(s, t)[i] == k;
        assert At(s, t, rows[i].0) == Some(rows[i].1);
      }
      if At(v, t, k).Some? {
        assert k in Keys(v, t);
        var i :| 0 <= i < |rows| && Keys(v, t)[i] == k;
        assert At(v, t, rows[i].0) == Some(rows[i].1);
      }
    }
  }

  // Two inspected archives with one digest hold the same rows in all five tables, unless the hash
  // collides on what was hashed.
  lemma DigestBinds(hash: seq<byte> -> Key, s: Store, v: Store)
    requires CollisionFree(hash, {Stream(s, 5), Stream(v, 5)}) && Shaped(s) && Shaped(v)
    requires SummaryOf(hash, s).digest == SummaryOf(hash, v).digest
    ensures forall t :: InTransfer(t) ==> SameOn(s, v, t)
  {
    hide Stream, TableRows, Shaped, SameOn, Tail, RowsStream, Ascii, Keys;
    StreamSplits(s, 0);
    StreamSplits(v, 0);
    HeaderSame(s, v);
    TailsBind(s, v, 0);
    assert TableAt(0) == Content && TableAt(1) == Claims && TableAt(2) == Requests && TableAt(3) == History && TableAt(4) == Heads;
    forall t | InTransfer(t)
      ensures SameOn(s, v, t)
    {
      RowsSay(s, v, t);
    }
  }

  lemma HeaderSame(s: Store, v: Store)
    requires Stream(s, 0) + Tail(s, 0) == Stream(v, 0) + Tail(v, 0)
    ensures Tail(s, 0) == Tail(v, 0)
  {
    hide Tail, Ascii;
    var h := Stream(s, 0);
    assert (h + Tail(s, 0))[|h|..] == Tail(s, 0) && (h + Tail(v, 0))[|h|..] == Tail(v, 0);
  }

  ghost predicate ShortRows(s: Store)
  {
    forall t, k :: InTransfer(t) && At(s, t, k).Some? ==> |At(s, t, k).value| <= MAX_BYTES_VALUE
  }

  // An inspected archive has the shape this takes, as long as no row is longer than a value may be.
  lemma AcceptedShaped(s: Store, maxRows: nat, maxBytes: nat, contentOk: (seq<byte>, seq<byte>) -> bool, opening: Option<Key>)
    requires Accepted(s, maxRows, maxBytes, contentOk, opening)
    requires ShortRows(s)
    ensures Shaped(s)
  {
    hide Coherent, DecodeHead, DecodeReceipt;
    CoherentShapes(s, contentOk);
    forall t, k | InTransfer(t) && At(s, t, k).Some?
      ensures |k| == 32 || |k| == 40 || |k| == 64
    {
      assert TableOk(s, t, contentOk);
      assert RowOk(t, k, At(s, t, k).value, contentOk);
    }
  }

  // Two accepted archives with one digest hold the same rows in all five tables, unless the hash
  // collides on the two streams.
  lemma AcceptedBinds(hash: seq<byte> -> Key, s: Store, v: Store, contentOk: (seq<byte>, seq<byte>) -> bool, opening: Option<Key>, reopening: Option<Key>)
    requires Accepted(s, MAX_INSPECTION_ROWS, MAX_INSPECTION_BYTES, contentOk, opening)
    requires Accepted(v, MAX_INSPECTION_ROWS, MAX_INSPECTION_BYTES, contentOk, reopening)
    requires ShortRows(s) && ShortRows(v)
    requires CollisionFree(hash, {Stream(s, 5), Stream(v, 5)}) && SummaryOf(hash, s).digest == SummaryOf(hash, v).digest
    ensures forall t :: InTransfer(t) ==> SameOn(s, v, t)
  {
    hide Accepted, Stream, SameOn;
    AcceptedShaped(s, MAX_INSPECTION_ROWS, MAX_INSPECTION_BYTES, contentOk, opening);
    AcceptedShaped(v, MAX_INSPECTION_ROWS, MAX_INSPECTION_BYTES, contentOk, reopening);
    DigestBinds(hash, s, v);
  }
}
