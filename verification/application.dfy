// Application history: conditional heads, receipts, immutable content and claims, and fences.
module Applications {
  import opened Wrappers
  import opened Bytes
  import opened Integers
  import opened Stores
  import opened Scans
  import opened Databases
  import Cursors

  datatype Head = Head(index: u64, commit: Key)

  datatype Error = Storage | Unknown | Conflict | HeadMismatch | Fenced | InvalidSequence | Limited | Corrupted

  function FromStorage(e: StorageError): Error
  {
    match e
    case CommitUnknown(_) => Unknown
    case Limit => Limited
    case Corrupt => Corrupted
    case _ => Storage
  }

  datatype Write = Write(
    namespace: Key, request: Key, fingerprint: Key, expected: Option<Head>, head: Head,
    content: seq<(Key, seq<byte>)>, claims: seq<(Key, Key)>)

  // ---------------------------------------------------------------- keys and codecs

  const EXPORT := Ascii("export-v1")
  const STATUS := Ascii("status")

  function RequestKey(ns: Key, request: Key): (k: seq<byte>)
    ensures |k| == 64
  {
    ns + request
  }

  function HistoryKey(ns: Key, index: u64): (k: seq<byte>)
    ensures |k| == 40
  {
    ns + BigEndian(index)
  }

  function FenceKey(ns: Key): seq<byte> { Ascii("neuron-fence") + [0] + ns }
  function StageKey(ns: Key): seq<byte> { ['s' as int] + ns }

  function EncodeHead(h: Head): (bs: seq<byte>)
    ensures |bs| == 40
  {
    EncodeU64(h.index) + h.commit
  }

  function DecodeHead(bs: seq<byte>): Option<Head>
  {
    if |bs| != 40 then None else Some(Head(DecodeU64(bs[..8]), bs[8..]))
  }

  function EncodeReceipt(fingerprint: Key, h: Head): (bs: seq<byte>)
    ensures |bs| == 72
  {
    fingerprint + EncodeHead(h)
  }

  function DecodeReceipt(bs: seq<byte>): Option<(Key, Head)>
  {
    if |bs| != 72 then None
    else Some((bs[..32], DecodeHead(bs[32..]).value))
  }

  lemma HeadRoundTrip(h: Head)
    ensures DecodeHead(EncodeHead(h)) == Some(h)
  {
    U64RoundTrip(h.index);
    assert EncodeHead(h)[..8] == EncodeU64(h.index) && EncodeHead(h)[8..] == h.commit;
  }

  lemma ReceiptRoundTrip(fingerprint: Key, h: Head)
    ensures DecodeReceipt(EncodeReceipt(fingerprint, h)) == Some((fingerprint, h))
  {
    HeadRoundTrip(h);
    assert EncodeReceipt(fingerprint, h)[..32] == fingerprint && EncodeReceipt(fingerprint, h)[32..] == EncodeHead(h);
  }

  lemma HistoryKeyInjective(a: Key, i: u64, b: Key, j: u64)
    requires HistoryKey(a, i) == HistoryKey(b, j)
    ensures a == b && i == j
  {
    assert a == HistoryKey(a, i)[..32] && b == HistoryKey(b, j)[..32];
    assert BigEndian(i) == HistoryKey(a, i)[32..] && BigEndian(j) == HistoryKey(b, j)[32..];
    BigEndianInjective(i, j);
  }

  lemma RequestKeyInjective(a: Key, r: Key, b: Key, q: Key)
    requires RequestKey(a, r) == RequestKey(b, q)
    ensures a == b && r == q
  {
    assert a == RequestKey(a, r)[..32] && b == RequestKey(b, q)[..32];
    assert r == RequestKey(a, r)[32..] && q == RequestKey(b, q)[32..];
  }

  // ---------------------------------------------------------------- the rows, decoded

  function HeadOf(s: Store, ns: Key): Option<Head>
  {
    match At(s, Heads, ns) case None => None case Some(bs) => DecodeHead(bs)
  }

  function HistoryOf(s: Store, ns: Key, index: u64): Option<seq<byte>>
  {
    At(s, History, HistoryKey(ns, index))
  }

  function ReceiptOf(s: Store, ns: Key, request: Key): Option<(Key, Head)>
  {
    match At(s, Requests, RequestKey(ns, request)) case None => None case Some(bs) => DecodeReceipt(bs)
  }

  predicate IsFenced(s: Store, ns: Key)
  {
    At(s, Migration, FenceKey(ns)).Some? || At(s, Migration, StageKey(ns)).Some? || At(s, Migration, STATUS) == Some(EXPORT)
  }

  // ---------------------------------------------------------------- immutable rows

  predicate Puttable(s: Store, t: Table, k: seq<byte>, v: seq<byte>)
  {
    At(s, t, k) == None || At(s, t, k) == Some(v)
  }

  function PutAll(s: Store, t: Table, rows: seq<RawEntry>): Store
  {
    if rows == [] then s
    else
      var row := rows[|rows| - 1];
      PutAll(s, t, rows[..|rows| - 1])[Slot(t, row.0) := row.1]
  }

  // Each row in turn is new, or is there already with the same value.
  ghost predicate AllPuttable(s: Store, t: Table, rows: seq<RawEntry>)
  {
    forall i :: 0 <= i < |rows| ==> Puttable(PutAll(s, t, rows[..i]), t, rows[i].0, rows[i].1)
  }

  ghost predicate SameOn(s: Store, v: Store, t: Table)
  {
    forall k :: At(v, t, k) == At(s, t, k)
  }

  // Nothing in table t is overwritten or removed.
  ghost predicate Extends(s: Store, v: Store, t: Table)
  {
    forall k :: At(s, t, k).Some? ==> At(v, t, k) == At(s, t, k)
  }

  lemma {:induction false} PutAllElsewhere(s: Store, t: Table, rows: seq<RawEntry>, u: Table)
    requires u != t
    ensures SameOn(s, PutAll(s, t, rows), u)
  {
    if rows != [] {
      PutAllElsewhere(s, t, rows[..|rows| - 1], u);
    }
  }

  lemma PutKeeps(v: Store, t: Table, k: seq<byte>, b: seq<byte>)
    requires Puttable(v, t, k, b)
    ensures Extends(v, v[Slot(t, k) := b], t) && At(v[Slot(t, k) := b], t, k) == Some(b)
  {
  }

  lemma {:induction false} PutAllExtends(s: Store, t: Table, rows: seq<RawEntry>)
    requires AllPuttable(s, t, rows)
    ensures Extends(s, PutAll(s, t, rows), t)
    ensures forall i :: 0 <= i < |rows| ==> At(PutAll(s, t, rows), t, rows[i].0) == Some(rows[i].1)
  {
    hide AllPuttable, Puttable;
    if rows != [] {
      var n := |rows| - 1;
      var before := rows[..n];
      PrefixPuttable(s, t, rows);
      PutAllExtends(s, t, before);
      PutKeeps(PutAll(s, t, before), t, rows[n].0, rows[n].1);
      forall i | 0 <= i < n
        ensures At(PutAll(s, t, rows), t, rows[i].0) == Some(rows[i].1)
      {
        assert before[i] == rows[i];
      }
    }
  }

  lemma PrefixPuttable(s: Store, t: Table, rows: seq<RawEntry>)
    requires rows != [] && AllPuttable(s, t, rows)
    ensures AllPuttable(s, t, rows[..|rows| - 1])
    ensures Puttable(PutAll(s, t, rows[..|rows| - 1]), t, rows[|rows| - 1].0, rows[|rows| - 1].1)
  {
    hide Puttable, PutAll;
    var before := rows[..|rows| - 1];
    forall i | 0 <= i < |before|
      ensures Puttable(PutAll(s, t, before[..i]), t, before[i].0, before[i].1)
    {
      assert before[..i] == rows[..i] && before[i] == rows[i];
    }
  }

  // What a list of rows weighs.
  function RowsBytes(rows: seq<RawEntry>): nat
  {
    if rows == [] then 0 else RowsBytes(rows[..|rows| - 1]) + |rows[|rows| - 1].0| + |rows[|rows| - 1].1|
  }

  lemma {:induction false} RowsBytesGrow(rows: seq<RawEntry>, n: nat, m: nat)
    requires n <= m <= |rows|
    ensures RowsBytes(rows[..n]) <= RowsBytes(rows[..m])
    ensures n < |rows| ==> RowsBytes(rows[..n + 1]) == RowsBytes(rows[..n]) + |rows[n].0| + |rows[n].1|
    decreases m
  {
    if n < |rows| {
      assert rows[..n + 1][..n] == rows[..n];
    }
    if n < m {
      assert rows[..m][..m - 1] == rows[..m - 1];
      RowsBytesGrow(rows, n, m - 1);
    }
  }

  predicate RowsSized(rows: seq<RawEntry>, max: nat)
  {
    max <= MAX_BYTES_VALUE && forall i :: 0 <= i < |rows| ==> |rows[i].0| <= MAX_KEY_BYTES && |rows[i].1| <= max
  }

  // Write a row unless it is there; a different value is a conflict.
  method ImmutablePut(tx: Transaction, t: Table, k: seq<byte>, v: seq<byte>, max: nat) returns (r: Result<(), Error>)
    requires tx.Valid()
    modifies tx
    ensures tx.Valid()
    ensures r.Ok? ==> Puttable(old(tx.View()), t, k, v) && tx.View() == old(tx.View())[Slot(t, k) := v]
    ensures r.Err? ==> tx.View() == old(tx.View())
    ensures r == Err(Conflict) ==> !Puttable(old(tx.View()), t, k, v)
    ensures Puttable(old(tx.View()), t, k, v) && |k| <= MAX_KEY_BYTES && |v| <= max <= MAX_BYTES_VALUE && old(tx.Room(1, |k| + |v|)) ==> r.Ok?
    ensures |tx.changes| <= |old(tx.changes)| + 1 && tx.bytes <= old(tx.bytes) + |k| + |v|
  {
    hide Bounded, Patched;
    var previous := tx.Get(t, k, max);
    if previous.Err? {
      return Err(FromStorage(previous.error));
    }
    if previous.value.Some? {
      if previous.value.value != v {
        return Err(Conflict);
      }
      return Ok(());
    }
    var put := tx.Put(t, k, v);
    if put.Err? {
      return Err(FromStorage(put.error));
    }
    r := Ok(());
  }

  // All rows in order, or an error; never one for rows that can be put and fit the budget.
  method ImmutablePutAll(tx: Transaction, t: Table, rows: seq<RawEntry>, max: nat) returns (r: Result<(), Error>)
    requires tx.Valid()
    modifies tx
    ensures tx.Valid()
    ensures r.Ok? ==> AllPuttable(old(tx.View()), t, rows) && tx.View() == PutAll(old(tx.View()), t, rows)
    ensures AllPuttable(old(tx.View()), t, rows) && RowsSized(rows, max) && old(tx.Room(|rows|, RowsBytes(rows))) ==> r.Ok?
    ensures |tx.changes| <= |old(tx.changes)| + |rows| && tx.bytes <= old(tx.bytes) + RowsBytes(rows)
  {
    hide Bounded, Patched, Puttable, PutAll, RowsBytes;
    ghost var s := tx.View();
    var i := 0;
    NothingPut(s, t, rows);
    RowsBytesGrow(rows, 0, |rows|);
    assert rows[..|rows|] == rows;
    while i < |rows|
      invariant 0 <= i <= |rows| && tx.Valid() && tx.View() == PutAll(s, t, rows[..i])
      invariant forall j :: 0 <= j < i ==> Puttable(PutAll(s, t, rows[..j]), t, rows[j].0, rows[j].1)
      invariant |tx.changes| <= |old(tx.changes)| + i && tx.bytes <= old(tx.bytes) + RowsBytes(rows[..i])
    {
      PutNext(s, t, rows, i);
      RowsBytesGrow(rows, i, |rows|);
      RowsBytesGrow(rows, i + 1, |rows|);
      var put := ImmutablePut(tx, t, rows[i].0, rows[i].1, max);
      if put.Err? {
        return put;
      }
      i := i + 1;
    }
    assert rows[..i] == rows;
    r := Ok(());
  }

  // ---------------------------------------------------------------- what an accepted write does

  // What runs inside the application's transaction: nothing, writes of the shard and native record
  // spaces, or a namespace migration.
  datatype Plan =
    | Nothing
    | Records(writes: seq<(Slot, Option<seq<byte>>)>)
    | Migrate(manifest: Key, sources: seq<(Key, Head)>)

  predicate Outside(t: Table)
  {
    t.Shard? || t.Native?
  }

  predicate PlanShape(plan: Plan, ns: Key)
  {
    match plan
    case Nothing => true
    case Records(writes) => forall i :: 0 <= i < |writes| ==> Outside(writes[i].0.table)
    case Migrate(_, sources) => SourcesShape(ns, sources)
  }

  function WriteAll(s: Store, writes: seq<(Slot, Option<seq<byte>>)>): Store
  {
    if writes == [] then s
    else
      var (x, v) := writes[|writes| - 1];
      var before := WriteAll(s, writes[..|writes| - 1]);
      if v.Some? then before[x := v.value] else before - {x}
  }

  function FenceRows(ns: Key, manifest: Key, sources: seq<(Key, Head)>): seq<RawEntry>
  {
    seq(|sources|, i requires 0 <= i < |sources| => (FenceKey(sources[i].0), ns + manifest))
  }

  // The reader generations, in order; None for a status no reader understands.
  function Generation(status: Option<seq<byte>>): Option<nat>
  {
    if status == None || status == Some(Ascii("complete")) then Some(0)
    else if status == Some(Ascii("neuron-v1")) then Some(1)
    else if status == Some(Ascii("auth-v1")) then Some(2)
    else None
  }

  // Raise the reader generation to neurons.
  function Promoted(s: Store): Store
  {
    if Generation(At(s, Migration, STATUS)) == Some(0) then s[Slot(Migration, STATUS) := Ascii("neuron-v1")] else s
  }

  function Transitioned(s: Store, ns: Key, plan: Plan): Store
  {
    match plan
    case Nothing => s
    case Records(writes) => WriteAll(s, writes)
    case Migrate(manifest, sources) => Promoted(PutAll(s, Migration, FenceRows(ns, manifest, sources)))
  }

  // A staged origin must be copied completely, for this target.
  function CursorKey(manifest: Key): seq<byte> { ['t' as int] + manifest }
  function TargetKey(manifest: Key): seq<byte> { ['u' as int] + manifest }

  predicate CompleteFor(s: Store, origin: Key, target: Key)
  {
    match At(s, Migration, StageKey(origin))
    case None => true
    case Some(manifest) =>
      && |manifest| == 32 && At(s, Migration, TargetKey(manifest)) == Some(target)
      && match At(s, Migration, CursorKey(manifest))
         case None => false
         case Some(bytes) => Cursors.Decode(bytes).Some? && Cursors.Decode(bytes).value.table == Cursors.TABLES
  }

  predicate SourcesShape(ns: Key, sources: seq<(Key, Head)>)
  {
    && 0 < |sources| <= 256
    && (forall i :: 0 <= i < |sources| - 1 ==> Lt(sources[i].0, sources[i + 1].0))
    && (forall i :: 0 <= i < |sources| ==> sources[i].0 != ns)
  }

  // Copied completely for this target, at its named head, and free to be fenced.
  predicate SourceReady(s: Store, ns: Key, manifest: Key, source: (Key, Head))
  {
    CompleteFor(s, source.0, ns) && HeadOf(s, source.0) == Some(source.1)
    && Puttable(s, Migration, FenceKey(source.0), ns + manifest)
  }

  // Every source is ready once those before it are fenced.
  ghost predicate SourcesReady(s: Store, ns: Key, manifest: Key, sources: seq<(Key, Head)>)
  {
    forall i :: 0 <= i < |sources| ==>
      SourceReady(PutAll(s, Migration, FenceRows(ns, manifest, sources)[..i]), ns, manifest, sources[i])
  }

  ghost predicate PlanReady(s: Store, ns: Key, plan: Plan)
  {
    plan.Migrate? ==>
      && SourcesReady(s, ns, plan.manifest, plan.sources)
      && Generation(At(PutAll(s, Migration, FenceRows(ns, plan.manifest, plan.sources)), Migration, STATUS)).Some?
  }

  function NextIndex(current: Option<Head>): nat
  {
    match current case None => 0 case Some(h) => h.index + 1
  }

  // The head is legible, the one the write expects, and the write's head comes next.
  predicate HeadExpected(s: Store, w: Write)
  {
    && (At(s, Heads, w.namespace).Some? ==> HeadOf(s, w.namespace).Some?) && HeadOf(s, w.namespace) == w.expected
    && w.head.index == NextIndex(w.expected)
  }

  // The conditions under which a new request is applied.
  ghost predicate Acceptable(s: Store, w: Write, plan: Plan)
  {
    && WriteShape(w) && At(s, Requests, RequestKey(w.namespace, w.request)) == None
    && !IsFenced(s, w.namespace) && HeadExpected(s, w)
    && AllPuttable(s, Claims, w.claims) && AllPuttable(s, Content, w.content)
    && At(PutAll(s, Content, w.content), Content, w.head.commit).Some?
    && PlanShape(plan, w.namespace) && PlanReady(Filled(s, w), w.namespace, plan)
  }

  function Filled(s: Store, w: Write): Store
  {
    PutAll(PutAll(s, Claims, w.claims), Content, w.content)
  }

  // The store an accepted write leaves, markers aside.
  function Applied(s: Store, w: Write, plan: Plan): Store
  {
    Transitioned(Filled(s, w), w.namespace, plan)
      [Slot(History, HistoryKey(w.namespace, w.head.index)) := w.head.commit]
      [Slot(Heads, w.namespace) := EncodeHead(w.head)]
      [Slot(Requests, RequestKey(w.namespace, w.request)) := EncodeReceipt(w.fingerprint, w.head)]
  }

  // The same records, whatever the commit markers say.
  ghost predicate SameRecords(s: Store, v: Store)
  {
    forall t, k :: t != Metadata ==> At(v, t, k) == At(s, t, k)
  }

  // One step of the application store: a request is applied, or the records stay.
  ghost predicate Next(s: Store, v: Store)
  {
    SameRecords(s, v) || exists w, plan :: Acceptable(s, w, plan) && SameRecords(Applied(s, w, plan), v)
  }

  lemma CommittedRecords(hash: seq<byte> -> Key, s: Store, c: Changes)
    ensures SameRecords(Patched(s, c), Committed(hash, s, c))
  {
    if c != map[] {
      forall t, k | t != Metadata
        ensures At(Committed(hash, s, c), t, k) == At(Patched(s, c), t, k)
      {
        PatchedAt(s, c, t, k);
        PatchedAt(s, Marked(c, ChangeId(hash, c)), t, k);
      }
    }
  }

  // ---------------------------------------------------------------- applying a write

  predicate WriteShape(w: Write)
  {
    |w.content| <= 131_072 && |w.claims| <= 4096 && ContentBytes(w.content) <= 16 * 1024 * 1024
  }

  function ContentBytes(content: seq<(Key, seq<byte>)>): nat
  {
    if content == [] then 0 else ContentBytes(content[..|content| - 1]) + |content[|content| - 1].1|
  }

  method ValidateWrite(w: Write) returns (ok: bool)
    ensures ok == WriteShape(w)
  {
    if |w.content| > 131_072 || |w.claims| > 4096 {
      return false;
    }
    var total, i := 0, 0;
    while i < |w.content|
      invariant 0 <= i <= |w.content| && total == ContentBytes(w.content[..i])
    {
      assert w.content[..i + 1][..i] == w.content[..i];
      total := total + |w.content[i].1|;
      i := i + 1;
    }
    assert w.content[..i] == w.content;
    ok := total <= 16 * 1024 * 1024;
  }

  // ---------------------------------------------------------------- what keeps a write from being refused

  // The rows a bounded read could refuse: a long migration status or long content.
  ghost predicate Legible(s: Store)
  {
    (At(s, Migration, STATUS).Some? ==> |At(s, Migration, STATUS).value| <= 16) && ContentShort(s)
  }

  ghost predicate ContentShort(s: Store)
  {
    forall k :: At(s, Content, k).Some? ==> |At(s, Content, k).value| <= MAX_BYTES_VALUE
  }

  function WritesBytes(writes: seq<(Slot, Option<seq<byte>>)>): nat
  {
    if writes == [] then 0
    else WritesBytes(writes[..|writes| - 1]) + Weight(writes[|writes| - 1].0, writes[|writes| - 1].1)
  }

  predicate PlanSized(plan: Plan)
  {
    plan.Records? ==> forall i :: 0 <= i < |plan.writes| ==> Fits(plan.writes[i].0.key, plan.writes[i].1)
  }

  function PlanKeys(plan: Plan): nat
  {
    match plan
    case Nothing => 0
    case Records(writes) => |writes|
    case Migrate(_, sources) => |sources| + 1
  }

  // A fence takes 45 + 64 bytes, the reader generation 6 + 9.
  function PlanBytes(plan: Plan): nat
  {
    match plan
    case Nothing => 0
    case Records(writes) => WritesBytes(writes)
    case Migrate(_, sources) => 109 * |sources| + 15
  }

  // The transaction has room for everything; history, head and receipt take three rows.
  ghost predicate InBudget(w: Write, plan: Plan)
  {
    && PlanSized(plan)
    && |w.claims| + |w.content| + PlanKeys(plan) + 3 <= MAX_TRANSACTION_KEYS - 2
    && RowsBytes(w.claims) + RowsBytes(w.content) + PlanBytes(plan) + 280 <= MAX_TRANSACTION_BYTES - MARKER_BYTES
  }

  lemma {:induction false} ContentWeight(content: seq<(Key, seq<byte>)>)
    ensures RowsBytes(content) == 32 * |content| + ContentBytes(content)
    ensures forall i :: 0 <= i < |content| ==> |content[i].1| <= ContentBytes(content)
  {
    if content != [] {
      var before := content[..|content| - 1];
      ContentWeight(before);
      forall i | 0 <= i < |content|
        ensures |content[i].1| <= ContentBytes(content)
      {
        assert i < |before| ==> before[i] == content[i];
      }
    }
  }

  lemma {:induction false} ClaimsWeight(claims: seq<(Key, Key)>)
    ensures RowsBytes(claims) == 64 * |claims|
  {
    if claims != [] {
      ClaimsWeight(claims[..|claims| - 1]);
    }
  }

  lemma {:induction false} FencesWeight(rows: seq<RawEntry>)
    requires forall i :: 0 <= i < |rows| ==> |rows[i].0| + |rows[i].1| == 109
    ensures RowsBytes(rows) == 109 * |rows|
  {
    if rows != [] {
      FencesWeight(rows[..|rows| - 1]);
    }
  }

  // The shape of a write alone keeps it and a migration within the budget.
  lemma ShapeInBudget(w: Write, plan: Plan)
    requires WriteShape(w) && PlanShape(plan, w.namespace) && !plan.Records?
    ensures InBudget(w, plan)
  {
    ContentWeight(w.content);
    ClaimsWeight(w.claims);
  }

  // The guards of a new request, in the order they are checked.
  method CheckNew(tx: Transaction, w: Write) returns (e: Option<Error>)
    requires tx.Valid() && At(tx.View(), Requests, RequestKey(w.namespace, w.request)) == None
    ensures e.None? ==> !IsFenced(tx.View(), w.namespace) && HeadExpected(tx.View(), w)
    ensures Legible(tx.View()) && !IsFenced(tx.View(), w.namespace) && HeadExpected(tx.View(), w) ==> e.None?
    ensures Headed(tx.View(), w) ==> e == HeadError(tx.View(), w)
  {
    hide Bounded, Patched, HeadExpected, Ascii, HeadError, HeadOf;
    FenceKeyShort(w.namespace);
    var fence := tx.Get(Migration, FenceKey(w.namespace), 64);
    if fence.Err? {
      return Some(FromStorage(fence.error));
    }
    if fence.value.Some? {
      return Some(Fenced);
    }
    var status := tx.Get(Migration, STATUS, 16);
    if status.Err? {
      return Some(FromStorage(status.error));
    }
    if status.value == Some(EXPORT) {
      return Some(Fenced);
    }
    var stage := tx.Get(Migration, StageKey(w.namespace), 32);
    if stage.Err? {
      return Some(FromStorage(stage.error));
    }
    if stage.value.Some? {
      return Some(Fenced);
    }
    e := CheckHead(tx, w);
  }

  lemma FenceKeyShort(ns: Key)
    ensures |FenceKey(ns)| == 45 && |StageKey(ns)| == 33 && |STATUS| == 6
  {
  }

  method CheckHead(tx: Transaction, w: Write) returns (e: Option<Error>)
    requires tx.Valid()
    ensures e.None? <==> HeadExpected(tx.View(), w)
    ensures At(tx.View(), Heads, w.namespace).None? || HeadOf(tx.View(), w.namespace).Some? ==> e == HeadError(tx.View(), w)
  {
    hide Bounded, Patched;
    var bytes := tx.Get(Heads, w.namespace, 40);
    if bytes.Err? {
      return Some(FromStorage(bytes.error));
    }
    var current: Option<Head> := None;
    if bytes.value.Some? {
      current := DecodeHead(bytes.value.value);
      if current.None? {
        return Some(Corrupted);
      }
    }
    if current != w.expected {
      return Some(HeadMismatch);
    }
    if current.Some? && current.value.index + 1 >= U64_BOUND {
      return Some(InvalidSequence);
    }
    if w.head.index != NextIndex(current) {
      return Some(InvalidSequence);
    }
    e := None;
  }

  // Everything Fill asks of the store.
  ghost predicate Fillable(s: Store, w: Write)
  {
    && AllPuttable(s, Claims, w.claims) && AllPuttable(s, Content, w.content)
    && At(PutAll(s, Content, w.content), Content, w.head.commit).Some?
  }

  // Claims, then content; the head must commit to content that is there.
  method Fill(tx: Transaction, w: Write) returns (r: Result<(), Error>)
    requires tx.Valid() && WriteShape(w)
    modifies tx
    ensures tx.Valid()
    ensures r.Ok? ==> Fillable(old(tx.View()), w) && tx.View() == Filled(old(tx.View()), w)
    ensures (&& Fillable(old(tx.View()), w) && Legible(old(tx.View()))
             && old(tx.Room(|w.claims| + |w.content|, RowsBytes(w.claims) + RowsBytes(w.content)))) ==> r.Ok?
    ensures |tx.changes| <= |old(tx.changes)| + |w.claims| + |w.content|
    ensures tx.bytes <= old(tx.bytes) + RowsBytes(w.claims) + RowsBytes(w.content)
  {
    hide Bounded, Patched, AllPuttable, PutAll, RowsBytes, Legible, ContentBytes;
    ghost var s := tx.View();
    ContentWeight(w.content);
    r := ImmutablePutAll(tx, Claims, w.claims, 32);
    if r.Err? {
      return;
    }
    PutAllElsewhere(s, Claims, w.claims, Content);
    SamePuttable(s, tx.View(), Content, w.content);
    r := ImmutablePutAll(tx, Content, w.content, MAX_BYTES_VALUE);
    if r.Err? {
      return;
    }
    CommitShort(s, w);
    var commit := tx.Get(Content, w.head.commit, MAX_BYTES_VALUE);
    if commit.Err? {
      return Err(FromStorage(commit.error));
    }
    if commit.value.None? {
      return Err(Corrupted);
    }
  }

  // Filling in keeps every row of content readable.
  lemma CommitShort(s: Store, w: Write)
    requires WriteShape(w)
    ensures Legible(s) ==> ContentShort(PutAll(s, Content, w.content))
  {
    if Legible(s) {
      ContentWeight(w.content);
      PutAllShort(s, w.content);
    }
  }

  lemma {:induction false} PutAllShort(s: Store, rows: seq<RawEntry>)
    requires forall i :: 0 <= i < |rows| ==> |rows[i].1| <= MAX_BYTES_VALUE
    requires ContentShort(s)
    ensures ContentShort(PutAll(s, Content, rows))
  {
    if rows != [] {
      var before := PutAll(s, Content, rows[..|rows| - 1]);
      PutAllShort(s, rows[..|rows| - 1]);
      forall k | At(PutAll(s, Content, rows), Content, k).Some?
        ensures |At(PutAll(s, Content, rows), Content, k).value| <= MAX_BYTES_VALUE
      {
        assert k != rows[|rows| - 1].0 ==> At(before, Content, k) == At(PutAll(s, Content, rows), Content, k);
      }
    }
  }

  // Whether rows can be put depends only on their table.
  lemma {:induction false} SamePut(s: Store, v: Store, t: Table, rows: seq<RawEntry>)
    requires SameOn(s, v, t)
    ensures SameOn(PutAll(s, t, rows), PutAll(v, t, rows), t)
  {
    if rows != [] {
      var before := rows[..|rows| - 1];
      SamePut(s, v, t, before);
      forall k
        ensures At(PutAll(v, t, rows), t, k) == At(PutAll(s, t, rows), t, k)
      {
        assert At(PutAll(v, t, before), t, k) == At(PutAll(s, t, before), t, k);
      }
    }
  }

  lemma SamePuttable(s: Store, v: Store, t: Table, rows: seq<RawEntry>)
    requires SameOn(s, v, t)
    ensures AllPuttable(v, t, rows) <==> AllPuttable(s, t, rows)
    ensures SameOn(PutAll(s, t, rows), PutAll(v, t, rows), t)
  {
    hide PutAll;
    SamePut(s, v, t, rows);
    forall i | 0 <= i < |rows|
      ensures Puttable(PutAll(v, t, rows[..i]), t, rows[i].0, rows[i].1) <==> Puttable(PutAll(s, t, rows[..i]), t, rows[i].0, rows[i].1)
    {
      SamePut(s, v, t, rows[..i]);
    }
  }

  // The closure's own writes.
  method RunPlan(tx: Transaction, ns: Key, plan: Plan) returns (r: Result<(), Error>)
    requires tx.Valid()
    modifies tx
    ensures tx.Valid()
    ensures r.Ok? ==> PlanReady(old(tx.View()), ns, plan) && tx.View() == Transitioned(old(tx.View()), ns, plan)
    ensures PlanReady(old(tx.View()), ns, plan) && PlanSized(plan) && old(tx.Room(PlanKeys(plan), PlanBytes(plan))) ==> r.Ok?
    ensures |tx.changes| <= |old(tx.changes)| + PlanKeys(plan) && tx.bytes <= old(tx.bytes) + PlanBytes(plan)
  {
    hide Bounded, Patched, SourcesReady, SourcesShape;
    match plan {
      case Nothing =>
        r := Ok(());
      case Records(writes) =>
        r := RunRecords(tx, writes);
      case Migrate(manifest, sources) =>
        r := RunMigration(tx, ns, manifest, sources);
    }
  }

  method RunRecords(tx: Transaction, writes: seq<(Slot, Option<seq<byte>>)>) returns (r: Result<(), Error>)
    requires tx.Valid()
    modifies tx
    ensures tx.Valid() && (r.Ok? ==> tx.View() == WriteAll(old(tx.View()), writes))
    ensures PlanSized(Records(writes)) && old(tx.Room(|writes|, WritesBytes(writes))) ==> r.Ok?
    ensures |tx.changes| <= |old(tx.changes)| + |writes| && tx.bytes <= old(tx.bytes) + WritesBytes(writes)
  {
    hide Bounded, Patched, WriteAll, WritesBytes;
    ghost var s := tx.View();
    var i := 0;
    NothingWritten(s, writes);
    while i < |writes|
      invariant 0 <= i <= |writes| && tx.Valid() && tx.View() == WriteAll(s, writes[..i])
      invariant |tx.changes| <= |old(tx.changes)| + i && tx.bytes <= old(tx.bytes) + WritesBytes(writes[..i])
    {
      WriteNext(s, writes, i);
      r := WriteRecord(tx, writes[i].0, writes[i].1);
      if r.Err? {
        return;
      }
      i := i + 1;
    }
    assert writes[..i] == writes;
    r := Ok(());
  }

  method WriteRecord(tx: Transaction, x: Slot, v: Option<seq<byte>>) returns (r: Result<(), Error>)
    requires tx.Valid()
    modifies tx
    ensures tx.Valid() && (r.Ok? ==> tx.View() == if v.Some? then old(tx.View())[x := v.value] else old(tx.View()) - {x})
    ensures Fits(x.key, v) && old(tx.Room(1, Weight(x, v))) ==> r.Ok?
    ensures |tx.changes| <= |old(tx.changes)| + 1 && tx.bytes <= old(tx.bytes) + Weight(x, v)
  {
    hide Bounded, Patched;
    var put: Result<(), StorageError>;
    if v.Some? {
      put := tx.Put(x.table, x.key, v.value);
    } else {
      put := tx.Remove(x.table, x.key);
    }
    r := if put.Err? then Err(FromStorage(put.error)) else Ok(());
  }

  lemma NothingWritten(s: Store, writes: seq<(Slot, Option<seq<byte>>)>)
    ensures WriteAll(s, writes[..0]) == s && WritesBytes(writes[..0]) == 0
  {
  }

  lemma WriteNext(s: Store, writes: seq<(Slot, Option<seq<byte>>)>, i: nat)
    requires i < |writes|
    ensures var (x, v) := writes[i];
            && WriteAll(s, writes[..i + 1]) == (if v.Some? then WriteAll(s, writes[..i])[x := v.value] else WriteAll(s, writes[..i]) - {x})
            && WritesBytes(writes[..i + 1]) == WritesBytes(writes[..i]) + Weight(x, v) <= WritesBytes(writes)
  {
    assert writes[..i + 1][..i] == writes[..i];
    WritesBytesGrow(writes, i + 1);
  }

  lemma {:induction false} WritesBytesGrow(writes: seq<(Slot, Option<seq<byte>>)>, n: nat)
    requires n <= |writes|
    ensures WritesBytes(writes[..n]) <= WritesBytes(writes)
    decreases |writes|
  {
    if n < |writes| {
      assert writes[..|writes| - 1][..n] == writes[..n];
      WritesBytesGrow(writes[..|writes| - 1], n);
    } else {
      assert writes[..n] == writes;
    }
  }

  // Every source complete and at its named head; then its fence. Finally the reader generation.
  method RunMigration(tx: Transaction, ns: Key, manifest: Key, sources: seq<(Key, Head)>) returns (r: Result<(), Error>)
    requires tx.Valid()
    modifies tx
    ensures tx.Valid()
    ensures r.Ok? ==> PlanReady(old(tx.View()), ns, Migrate(manifest, sources))
                      && tx.View() == Transitioned(old(tx.View()), ns, Migrate(manifest, sources))
    ensures PlanReady(old(tx.View()), ns, Migrate(manifest, sources)) && old(tx.Room(|sources| + 1, 109 * |sources| + 15)) ==> r.Ok?
    ensures |tx.changes| <= |old(tx.changes)| + |sources| + 1 && tx.bytes <= old(tx.bytes) + 109 * |sources| + 15
  {
    hide Bounded, Patched, PutAll, SourceReady, Promoted, Generation;
    ghost var s := tx.View();
    ghost var rows := FenceRows(ns, manifest, sources);
    var i := 0;
    NothingPut(s, Migration, rows);
    while i < |sources|
      invariant 0 <= i <= |sources| && tx.Valid() && tx.View() == PutAll(s, Migration, rows[..i])
      invariant forall j :: 0 <= j < i ==> SourceReady(PutAll(s, Migration, rows[..j]), ns, manifest, sources[j])
      invariant |tx.changes| <= |old(tx.changes)| + i && tx.bytes <= old(tx.bytes) + 109 * i
    {
      var fenced := FenceSource(tx, ns, manifest, sources[i]);
      if fenced.Err? {
        return fenced;
      }
      PutNext(s, Migration, rows, i);
      i := i + 1;
    }
    assert rows[..i] == rows;
    r := Promote(tx);
  }

  lemma NothingPut(s: Store, t: Table, rows: seq<RawEntry>)
    ensures PutAll(s, t, rows[..0]) == s && RowsBytes(rows[..0]) == 0
  {
  }

  lemma PutNext(s: Store, t: Table, rows: seq<RawEntry>, i: nat)
    requires i < |rows|
    ensures PutAll(s, t, rows[..i + 1]) == PutAll(s, t, rows[..i])[Slot(t, rows[i].0) := rows[i].1]
  {
    assert rows[..i + 1][..i] == rows[..i];
  }

  method CheckSources(ns: Key, sources: seq<(Key, Head)>) returns (ok: bool)
    ensures ok == SourcesShape(ns, sources)
  {
    hide Lt;
    if |sources| == 0 || |sources| > 256 {
      return false;
    }
    ok := true;
    var i := 0;
    while i < |sources|
      invariant 0 <= i <= |sources|
      invariant ok <==> (forall j :: 0 <= j < i && j < |sources| - 1 ==> Lt(sources[j].0, sources[j + 1].0))
                        && forall j :: 0 <= j < i ==> sources[j].0 != ns
    {
      if (i + 1 < |sources| && !Lt(sources[i].0, sources[i + 1].0)) || sources[i].0 == ns {
        ok := false;
      }
      i := i + 1;
    }
  }

  method FenceSource(tx: Transaction, ns: Key, manifest: Key, source: (Key, Head)) returns (r: Result<(), Error>)
    requires tx.Valid()
    modifies tx
    ensures tx.Valid()
    ensures r.Ok? ==> SourceReady(old(tx.View()), ns, manifest, source)
                      && tx.View() == old(tx.View())[Slot(Migration, FenceKey(source.0)) := ns + manifest]
    ensures SourceReady(old(tx.View()), ns, manifest, source) && old(tx.Room(1, 109)) ==> r.Ok?
    ensures |tx.changes| <= |old(tx.changes)| + 1 && tx.bytes <= old(tx.bytes) + 109
  {
    hide Bounded, Patched, Puttable, FenceKey;
    FenceKeyShort(source.0);
    var complete := RequireComplete(tx, source.0, ns);
    if complete.Err? {
      return complete;
    }
    var bytes := tx.Get(Heads, source.0, 40);
    if bytes.Err? {
      return Err(FromStorage(bytes.error));
    }
    if bytes.value.None? || DecodeHead(bytes.value.value) != Some(source.1) {
      return Err(HeadMismatch);
    }
    r := ImmutablePut(tx, Migration, FenceKey(source.0), ns + manifest, 64);
  }

  // A staged origin passes only when its transfer is complete and aimed at this target.
  method RequireComplete(tx: Transaction, origin: Key, target: Key) returns (r: Result<(), Error>)
    requires tx.Valid()
    ensures r.Ok? <==> CompleteFor(tx.View(), origin, target)
  {
    hide Bounded, Patched;
    var stage := tx.Get(Migration, StageKey(origin), 32);
    if stage.Err? {
      return Err(FromStorage(stage.error));
    }
    if stage.value.None? {
      return Ok(());
    }
    var manifest := stage.value.value;
    if |manifest| != 32 {
      return Err(Corrupted);
    }
    var cursor := tx.Get(Migration, CursorKey(manifest), 82);
    if cursor.Err? {
      return Err(FromStorage(cursor.error));
    }
    if cursor.value.None? || Cursors.Decode(cursor.value.value).None? {
      return Err(Corrupted);
    }
    if Cursors.Decode(cursor.value.value).value.table != Cursors.TABLES {
      return Err(Fenced);
    }
    var aimed := tx.Get(Migration, TargetKey(manifest), 32);
    if aimed.Err? {
      return Err(FromStorage(aimed.error));
    }
    r := if aimed.value == Some(target) then Ok(()) else Err(Conflict);
  }

  // Raise the reader generation; a status no reader understands is an error.
  method Promote(tx: Transaction) returns (r: Result<(), Error>)
    requires tx.Valid()
    modifies tx
    ensures tx.Valid()
    ensures r.Ok? ==> Generation(At(old(tx.View()), Migration, STATUS)).Some? && tx.View() == Promoted(old(tx.View()))
    ensures Generation(At(old(tx.View()), Migration, STATUS)).Some? && old(tx.Room(1, 15)) ==> r.Ok?
    ensures |tx.changes| <= |old(tx.changes)| + 1 && tx.bytes <= old(tx.bytes) + 15
  {
    hide Bounded, Patched, Generation;
    GenerationShort(At(tx.View(), Migration, STATUS));
    var status := tx.Get(Migration, STATUS, 16);
    if status.Err? {
      return Err(FromStorage(status.error));
    }
    var current := Generation(status.value);
    if current.None? {
      return Err(Corrupted);
    }
    if current.value < 1 {
      GenerationsBelow(status.value);
      var put := tx.Put(Migration, STATUS, Ascii("neuron-v1"));
      if put.Err? {
        return Err(FromStorage(put.error));
      }
    }
    r := Ok(());
  }

  lemma GenerationShort(status: Option<seq<byte>>)
    ensures Generation(status).Some? && status.Some? ==> |status.value| <= 16
    ensures |STATUS| == 6
  {
  }

  lemma GenerationsBelow(status: Option<seq<byte>>)
    ensures Generation(status).Some? && Generation(status).value < 1 ==> Generation(status) == Some(0)
  {
  }

  // A request seen before answers from its receipt; a new one is checked, filled in and published.
  method Execute(tx: Transaction, w: Write, allowRetry: bool, plan: Plan) returns (r: Result<Head, Error>)
    requires tx.Valid() && tx.changes == map[] && PlanShape(plan, w.namespace) && WriteShape(w)
    modifies tx
    ensures tx.Valid()
    ensures At(old(tx.View()), Requests, RequestKey(w.namespace, w.request)).Some? ==> tx.changes == map[]
    ensures r.Ok? && At(old(tx.View()), Requests, RequestKey(w.namespace, w.request)).Some? ==>
      allowRetry && ReceiptOf(old(tx.View()), w.namespace, w.request) == Some((w.fingerprint, r.value))
    ensures allowRetry && ReceiptOf(old(tx.View()), w.namespace, w.request).Some? ==>
      var receipt := ReceiptOf(old(tx.View()), w.namespace, w.request).value;
      r == if receipt.0 == w.fingerprint then Ok(receipt.1) else Err(Conflict)
    ensures r.Ok? && At(old(tx.View()), Requests, RequestKey(w.namespace, w.request)).None? ==>
      Acceptable(old(tx.View()), w, plan) && r.value == w.head && tx.View() == Applied(old(tx.View()), w, plan)
    ensures Acceptable(old(tx.View()), w, plan) && Legible(old(tx.View())) && InBudget(w, plan) ==> r.Ok?
    ensures Headed(old(tx.View()), w) && HeadError(old(tx.View()), w).Some? ==> r == Err(HeadError(old(tx.View()), w).value)
  {
    hide Headed, HeadError, HeadOf;
    HeadedNew(tx.View(), w);
    hide Bounded, Patched, IsFenced, AllPuttable, PlanReady, PutAll, Transitioned, Legible, HeadExpected, RowsBytes, WriteShape, TotalBytes;
    EmptyTotal();
    var prior := tx.Get(Requests, RequestKey(w.namespace, w.request), 72);
    if prior.Err? {
      return Err(FromStorage(prior.error));
    }
    if prior.value.Some? {
      r := Replay(prior.value.value, w, allowRetry);
      return;
    }
    var refused := CheckNew(tx, w);
    if refused.Some? {
      return Err(refused.value);
    }
    r := Complete(tx, w, plan);
  }

  // Claims and content, the plan's own writes, then history, head and receipt.
  method Complete(tx: Transaction, w: Write, plan: Plan) returns (r: Result<Head, Error>)
    requires tx.Valid() && tx.changes == map[] && PlanShape(plan, w.namespace) && WriteShape(w)
    modifies tx
    ensures tx.Valid()
    ensures r.Ok? ==> Fillable(old(tx.View()), w) && PlanReady(Filled(old(tx.View()), w), w.namespace, plan)
                      && r.value == w.head && tx.View() == Applied(old(tx.View()), w, plan)
    ensures (&& Fillable(old(tx.View()), w) && PlanReady(Filled(old(tx.View()), w), w.namespace, plan)
             && Legible(old(tx.View())) && InBudget(w, plan)) ==> r.Ok?
  {
    hide Bounded, Patched, Fillable, Filled, PlanReady, Transitioned, Legible, RowsBytes, WriteShape, TotalBytes, HistoryKey, RequestKey, EncodeHead, EncodeReceipt;
    EmptyTotal();
    var filled := Fill(tx, w);
    if filled.Err? {
      return Err(filled.error);
    }
    var planned := RunPlan(tx, w.namespace, plan);
    if planned.Err? {
      return Err(planned.error);
    }
    r := Publish(tx, w);
  }

  // A new request to a namespace that is not fenced, over rows every read can take: its head decides.
  ghost predicate Headed(s: Store, w: Write)
  {
    && At(s, Requests, RequestKey(w.namespace, w.request)).None? && Legible(s) && !IsFenced(s, w.namespace)
    && (At(s, Heads, w.namespace).None? || HeadOf(s, w.namespace).Some?)
  }

  function HeadError(s: Store, w: Write): Option<Error>
  {
    if HeadOf(s, w.namespace) != w.expected then Some(HeadMismatch)
    else if w.head.index != NextIndex(w.expected) then Some(InvalidSequence)
    else None
  }

  lemma HeadedNew(s: Store, w: Write)
    ensures Headed(s, w) ==> At(s, Requests, RequestKey(w.namespace, w.request)).None?
  {
  }

  method Replay(prior: seq<byte>, w: Write, allowRetry: bool) returns (r: Result<Head, Error>)
    ensures r.Ok? ==> allowRetry && DecodeReceipt(prior) == Some((w.fingerprint, r.value))
    ensures allowRetry && DecodeReceipt(prior).Some? ==>
      r == if DecodeReceipt(prior).value.0 == w.fingerprint then Ok(DecodeReceipt(prior).value.1) else Err(Conflict)
  {
    if !allowRetry {
      return Err(Conflict);
    }
    var receipt := DecodeReceipt(prior);
    if receipt.None? {
      return Err(Corrupted);
    }
    r := if receipt.value.0 == w.fingerprint then Ok(receipt.value.1) else Err(Conflict);
  }

  // History, head and receipt.
  method Publish(tx: Transaction, w: Write) returns (r: Result<Head, Error>)
    requires tx.Valid()
    modifies tx
    ensures tx.Valid()
    ensures r.Ok? ==>
      && r.value == w.head
      && tx.View() == old(tx.View())[Slot(History, HistoryKey(w.namespace, w.head.index)) := w.head.commit]
                        [Slot(Heads, w.namespace) := EncodeHead(w.head)]
                        [Slot(Requests, RequestKey(w.namespace, w.request)) := EncodeReceipt(w.fingerprint, w.head)]
    ensures old(tx.Room(3, 280)) ==> r.Ok?
  {
    hide Bounded, Patched, HistoryKey, EncodeHead, EncodeReceipt, RequestKey;
    var put := tx.Put(History, HistoryKey(w.namespace, w.head.index), w.head.commit);
    if put.Err? {
      return Err(FromStorage(put.error));
    }
    put := tx.Put(Heads, w.namespace, EncodeHead(w.head));
    if put.Err? {
      return Err(FromStorage(put.error));
    }
    put := tx.Put(Requests, RequestKey(w.namespace, w.request), EncodeReceipt(w.fingerprint, w.head));
    if put.Err? {
      return Err(FromStorage(put.error));
    }
    r := Ok(w.head);
  }

  lemma EmptyTotal()
    ensures TotalBytes(map[]) == 0
  {
  }

  lemma NextSame(s: Store)
    ensures Next(s, s)
  {
  }

  // ---------------------------------------------------------------- one accepted write, table by table

  // v is s with w's head, history entry and receipt, and nothing overwritten elsewhere.
  ghost predicate Advances(s: Store, v: Store, w: Write)
  {
    && (forall k :: At(v, Heads, k) == if k == w.namespace then Some(EncodeHead(w.head)) else At(s, Heads, k))
    && (forall k :: At(v, History, k) == if k == HistoryKey(w.namespace, w.head.index) then Some(w.head.commit) else At(s, History, k))
    && (forall k :: At(v, Requests, k) == if k == RequestKey(w.namespace, w.request)
                                          then Some(EncodeReceipt(w.fingerprint, w.head)) else At(s, Requests, k))
    && Extends(s, v, Content) && Extends(s, v, Claims) && At(v, Content, w.head.commit).Some?
    && (forall k :: k != STATUS && At(s, Migration, k).Some? ==> At(v, Migration, k) == At(s, Migration, k))
    && (At(s, Migration, STATUS) == Some(EXPORT) ==> At(v, Migration, STATUS) == Some(EXPORT))
  }

  lemma {:induction false} WriteAllOutside(s: Store, writes: seq<(Slot, Option<seq<byte>>)>, t: Table)
    requires !Outside(t) && forall i :: 0 <= i < |writes| ==> Outside(writes[i].0.table)
    ensures SameOn(s, WriteAll(s, writes), t)
  {
    if writes != [] {
      WriteAllOutside(s, writes[..|writes| - 1], t);
    }
  }

  lemma FencesPuttable(s: Store, ns: Key, manifest: Key, sources: seq<(Key, Head)>)
    requires SourcesReady(s, ns, manifest, sources)
    ensures AllPuttable(s, Migration, FenceRows(ns, manifest, sources))
  {
    hide PutAll, Puttable, CompleteFor, FenceKey;
    var rows := FenceRows(ns, manifest, sources);
    forall i | 0 <= i < |rows|
      ensures Puttable(PutAll(s, Migration, rows[..i]), Migration, rows[i].0, rows[i].1)
    {
      assert SourceReady(PutAll(s, Migration, rows[..i]), ns, manifest, sources[i]);
    }
  }

  lemma {:induction false} PutAside(s: Store, t: Table, rows: seq<RawEntry>, k: seq<byte>)
    requires forall i :: 0 <= i < |rows| ==> rows[i].0 != k
    ensures At(PutAll(s, t, rows), t, k) == At(s, t, k)
  {
    if rows != [] {
      PutAside(s, t, rows[..|rows| - 1], k);
    }
  }

  // Fences leave every migration row that is no fence alone.
  lemma FencesAside(s: Store, ns: Key, manifest: Key, sources: seq<(Key, Head)>, n: nat, k: seq<byte>)
    requires n <= |sources| && |k| != 45
    ensures At(PutAll(s, Migration, FenceRows(ns, manifest, sources)[..n]), Migration, k) == At(s, Migration, k)
  {
    hide PutAll, FenceKey;
    var rows := FenceRows(ns, manifest, sources)[..n];
    forall i | 0 <= i < |rows|
      ensures rows[i].0 != k
    {
      FenceKeyShort(sources[i].0);
    }
    PutAside(s, Migration, rows, k);
  }

  // A transition touches the shard and native spaces, or adds fences and raises the generation.
  lemma TransitionedKeeps(s: Store, ns: Key, plan: Plan, t: Table)
    requires PlanShape(plan, ns) && !Outside(t)
    ensures t != Migration ==> SameOn(s, Transitioned(s, ns, plan), t)
  {
    hide Generation, PutAll;
    match plan
    case Nothing =>
    case Records(writes) => WriteAllOutside(s, writes, t);
    case Migrate(manifest, sources) =>
      if t != Migration {
        PutAllElsewhere(s, Migration, FenceRows(ns, manifest, sources), t);
      }
  }

  lemma ExportUngenerated()
    ensures Generation(Some(EXPORT)).None?
  {
    assert EXPORT[0] == 'e' as int && Ascii("complete")[0] == 'c' as int;
    assert Ascii("neuron-v1")[0] == 'n' as int && Ascii("auth-v1")[0] == 'a' as int;
  }

  lemma FenceIsNotStatus(ns: Key)
    ensures FenceKey(ns) != STATUS && StageKey(ns) != STATUS
  {
    assert |FenceKey(ns)| == 45 && |STATUS| == 6 && |StageKey(ns)| == 33;
  }

  lemma MigrationKept(s: Store, ns: Key, plan: Plan)
    requires PlanShape(plan, ns) && PlanReady(s, ns, plan)
    ensures var v := Transitioned(s, ns, plan);
            && (forall k :: k != STATUS && At(s, Migration, k).Some? ==> At(v, Migration, k) == At(s, Migration, k))
            && (At(s, Migration, STATUS) == Some(EXPORT) ==> At(v, Migration, STATUS) == Some(EXPORT))
  {
    hide PutAll, Generation, SourcesReady;
    match plan
    case Nothing =>
    case Records(writes) => WriteAllOutside(s, writes, Migration);
    case Migrate(manifest, sources) =>
      var rows := FenceRows(ns, manifest, sources);
      FencesPuttable(s, ns, manifest, sources);
      PutAllExtends(s, Migration, rows);
      FenceKeyShort(ns);
      assert rows[..|sources|] == rows;
      FencesAside(s, ns, manifest, sources, |sources|, STATUS);
      ExportUngenerated();
  }

  lemma FilledKeeps(s: Store, w: Write, t: Table)
    ensures t != Claims && t != Content ==> SameOn(s, Filled(s, w), t)
    ensures AllPuttable(s, Claims, w.claims) ==> Extends(s, Filled(s, w), Claims)
    ensures AllPuttable(s, Content, w.content) ==> Extends(s, Filled(s, w), Content)
    ensures At(PutAll(s, Content, w.content), Content, w.head.commit).Some? ==> At(Filled(s, w), Content, w.head.commit).Some?
  {
    hide PutAll, AllPuttable;
    var claimed := PutAll(s, Claims, w.claims);
    PutAllElsewhere(s, Claims, w.claims, Content);
    SamePut(s, claimed, Content, w.content);
    PutAllElsewhere(claimed, Content, w.content, Claims);
    if AllPuttable(s, Claims, w.claims) {
      PutAllExtends(s, Claims, w.claims);
    }
    if AllPuttable(s, Content, w.content) {
      PutAllExtends(s, Content, w.content);
    }
    if t != Claims && t != Content {
      PutAllElsewhere(s, Claims, w.claims, t);
      PutAllElsewhere(claimed, Content, w.content, t);
    }
  }

  lemma AppliedAdvances(s: Store, v: Store, w: Write, plan: Plan)
    requires Acceptable(s, w, plan) && SameRecords(Applied(s, w, plan), v)
    ensures Advances(s, v, w)
  {
    hide PutAll, AllPuttable, Filled, Transitioned, PlanReady, HistoryKey, RequestKey, EncodeHead, EncodeReceipt, IsFenced;
    var f := Filled(s, w);
    var t := Transitioned(f, w.namespace, plan);
    FilledKeeps(s, w, Heads);
    FilledKeeps(s, w, History);
    FilledKeeps(s, w, Requests);
    FilledKeeps(s, w, Migration);
    TransitionedKeeps(f, w.namespace, plan, Heads);
    TransitionedKeeps(f, w.namespace, plan, History);
    TransitionedKeeps(f, w.namespace, plan, Requests);
    TransitionedKeeps(f, w.namespace, plan, Content);
    TransitionedKeeps(f, w.namespace, plan, Claims);
    MigrationKept(f, w.namespace, plan);
  }

  // A migration leaves every source fenced for its target, at the head it was named with, and a
  // staged source was copied completely for that target.
  lemma MigrationFences(s: Store, v: Store, w: Write, manifest: Key, sources: seq<(Key, Head)>, i: nat)
    requires Acceptable(s, w, Migrate(manifest, sources)) && SameRecords(Applied(s, w, Migrate(manifest, sources)), v)
    requires i < |sources|
    ensures At(v, Migration, FenceKey(sources[i].0)) == Some(w.namespace + manifest) && IsFenced(v, sources[i].0)
    ensures HeadOf(v, sources[i].0) == HeadOf(s, sources[i].0) == Some(sources[i].1) && HeadOf(v, w.namespace) == Some(w.head)
    ensures CompleteFor(s, sources[i].0, w.namespace)
  {
    hide PutAll, AllPuttable, IsFenced, Filled, FenceKey, CompleteFor, Generation, WriteShape, Advances, SourcesShape, HeadExpected;
    var ns, origin := w.namespace, sources[i].0;
    var f, rows := Filled(s, w), FenceRows(ns, manifest, sources);
    var before := PutAll(f, Migration, rows[..i]);
    FilledKeeps(s, w, Heads);
    FilledKeeps(s, w, Migration);
    assert SourceReady(before, ns, manifest, sources[i]);
    PutAllElsewhere(f, Migration, rows[..i], Heads);
    forall k: seq<byte> | |k| == 33
      ensures At(before, Migration, k) == At(s, Migration, k)
    {
      FencesAside(f, ns, manifest, sources, i, k);
    }
    SameStage(s, before, origin, ns);
    FencesPuttable(f, ns, manifest, sources);
    PutAllExtends(f, Migration, rows);
    assert rows[i] == (FenceKey(origin), ns + manifest);
    FenceIsNotStatus(origin);
    FencedByRow(v, origin);
    AppliedAdvances(s, v, w, Migrate(manifest, sources));
    SourceApart(ns, sources, i);
    MigratedHeads(s, v, w, origin);
  }

  // Completeness is read off the stage, target and cursor rows.
  lemma SameStage(s: Store, v: Store, origin: Key, target: Key)
    requires forall k: seq<byte> :: |k| == 33 ==> At(v, Migration, k) == At(s, Migration, k)
    ensures CompleteFor(v, origin, target) == CompleteFor(s, origin, target)
  {
  }

  lemma SourceApart(ns: Key, sources: seq<(Key, Head)>, i: nat)
    requires SourcesShape(ns, sources) && i < |sources|
    ensures sources[i].0 != ns
  {
  }

  lemma FencedByRow(s: Store, ns: Key)
    requires At(s, Migration, FenceKey(ns)).Some?
    ensures IsFenced(s, ns)
  {
  }

  lemma MigratedHeads(s: Store, v: Store, w: Write, origin: Key)
    requires Advances(s, v, w) && origin != w.namespace
    ensures HeadOf(v, origin) == HeadOf(s, origin) && HeadOf(v, w.namespace) == Some(w.head)
  {
    HeadRoundTrip(w.head);
  }

  // An acceptable write expects the current head and comes next, its namespace is not fenced, and it
  // keeps to the limits.
  lemma AcceptableMeans(s: Store, w: Write, plan: Plan)
    requires Acceptable(s, w, plan)
    ensures HeadOf(s, w.namespace) == w.expected && w.head.index == (match w.expected case None => 0 case Some(h) => h.index + 1)
    ensures At(s, Migration, Ascii("neuron-fence") + [0] + w.namespace).None?
    ensures At(s, Migration, ['s' as int] + w.namespace).None? && At(s, Migration, Ascii("status")) != Some(Ascii("export-v1"))
    ensures |w.content| <= 131_072 && |w.claims| <= 4096 && ContentBytes(w.content) <= 16_777_216
  {
    hide PlanReady, AllPuttable, PutAll, HeadOf, Ascii, ContentBytes;
  }

  // What an applied write leaves under its own keys.
  lemma AppliedRows(s: Store, v: Store, w: Write, plan: Plan)
    requires Acceptable(s, w, plan) && SameRecords(Applied(s, w, plan), v)
    ensures HeadOf(v, w.namespace) == Some(w.head) && At(v, History, w.namespace + BigEndian(w.head.index)) == Some(w.head.commit)
    ensures ReceiptOf(v, w.namespace, w.request) == Some((w.fingerprint, w.head)) && At(v, Content, w.head.commit).Some?
    ensures forall i :: 0 <= i < |w.content| ==> At(v, Content, w.content[i].0) == Some(w.content[i].1)
    ensures forall i :: 0 <= i < |w.claims| ==> At(v, Claims, w.claims[i].0) == Some(w.claims[i].1)
    ensures !plan.Migrate? ==> SameOn(s, v, Migration)
  {
    hide PutAll, AllPuttable, PlanReady, Advances, Transitioned, WriteShape, IsFenced, HeadExpected, EncodeHead, EncodeReceipt, DecodeHead, DecodeReceipt, BigEndian;
    AppliedAdvances(s, v, w, plan);
    AdvancedHere(s, v, w);
    HeadRoundTrip(w.head);
    ReceiptRoundTrip(w.fingerprint, w.head);
    FilledRows(s, w);
    FilledKeeps(s, w, Migration);
    var f := Filled(s, w);
    TransitionedKeeps(f, w.namespace, plan, Content);
    TransitionedKeeps(f, w.namespace, plan, Claims);
    PlanSpares(f, w.namespace, plan);
  }

  lemma AdvancedHere(s: Store, v: Store, w: Write)
    requires Advances(s, v, w)
    ensures At(v, Heads, w.namespace) == Some(EncodeHead(w.head)) && At(v, Content, w.head.commit).Some?
    ensures At(v, History, HistoryKey(w.namespace, w.head.index)) == Some(w.head.commit)
    ensures At(v, Requests, RequestKey(w.namespace, w.request)) == Some(EncodeReceipt(w.fingerprint, w.head))
  {
  }

  lemma PlanSpares(s: Store, ns: Key, plan: Plan)
    requires PlanShape(plan, ns)
    ensures !plan.Migrate? ==> SameOn(s, Transitioned(s, ns, plan), Migration)
  {
    if plan.Records? {
      WriteAllOutside(s, plan.writes, Migration);
    }
  }

  lemma FilledRows(s: Store, w: Write)
    requires AllPuttable(s, Claims, w.claims) && AllPuttable(s, Content, w.content)
    ensures forall i :: 0 <= i < |w.content| ==> At(Filled(s, w), Content, w.content[i].0) == Some(w.content[i].1)
    ensures forall i :: 0 <= i < |w.claims| ==> At(Filled(s, w), Claims, w.claims[i].0) == Some(w.claims[i].1)
  {
    hide PutAll, AllPuttable;
    var claimed := PutAll(s, Claims, w.claims);
    PutAllElsewhere(s, Claims, w.claims, Content);
    SamePuttable(s, claimed, Content, w.content);
    PutAllExtends(s, Claims, w.claims);
    PutAllExtends(claimed, Content, w.content);
    PutAllElsewhere(claimed, Content, w.content, Claims);
  }

  // A migration raises the reader generation to neurons, once; a status no reader understands refuses it.
  lemma MigrationRaises(s: Store, v: Store, w: Write, manifest: Key, sources: seq<(Key, Head)>)
    requires Acceptable(s, w, Migrate(manifest, sources)) && SameRecords(Applied(s, w, Migrate(manifest, sources)), v)
    ensures var before, after := At(s, Migration, Ascii("status")), At(v, Migration, Ascii("status"));
            if before == None || before == Some(Ascii("complete")) then after == Some(Ascii("neuron-v1"))
            else (before == Some(Ascii("neuron-v1")) || before == Some(Ascii("auth-v1"))) && after == before
  {
    hide PutAll, AllPuttable, IsFenced, Filled, FenceKey, SourcesReady, WriteShape, SourcesShape, HeadExpected, Ascii;
    var f, rows := Filled(s, w), FenceRows(w.namespace, manifest, sources);
    FilledKeeps(s, w, Migration);
    FenceKeyShort(w.namespace);
    assert rows[..|sources|] == rows;
    FencesAside(f, w.namespace, manifest, sources, |sources|, STATUS);
  }

  // ---------------------------------------------------------------- the store

  lemma ShapeMeans(w: Write)
    ensures WriteShape(w) <==> |w.content| <= 131_072 && |w.claims| <= 4096 && ContentBytes(w.content) <= 16_777_216
  {
  }

  lemma SameSame(s: Store)
    ensures SameRecords(s, s)
  {
  }

  lemma KeyMeans(w: Write)
    ensures RequestKey(w.namespace, w.request) == w.namespace + w.request
  {
  }

  lemma AllAcceptable(s: Store, w: Write, plan: Plan)
    ensures Acceptable(s, w, plan) ==>
      && WriteShape(w) && At(s, Requests, RequestKey(w.namespace, w.request)).None?
      && HeadOf(s, w.namespace) == w.expected && w.head.index == (match w.expected case None => 0 case Some(h) => h.index + 1)
      && At(s, Migration, Ascii("neuron-fence") + [0] + w.namespace).None?
      && At(s, Migration, ['s' as int] + w.namespace).None? && At(s, Migration, Ascii("status")) != Some(Ascii("export-v1"))
  {
    if Acceptable(s, w, plan) {
      AcceptableMeans(s, w, plan);
    }
  }

  lemma RowsApplied(s: Store, v: Store, w: Write, plan: Plan)
    ensures Acceptable(s, w, plan) && SameRecords(Applied(s, w, plan), v) ==>
      && HeadOf(v, w.namespace) == Some(w.head) && At(v, History, w.namespace + BigEndian(w.head.index)) == Some(w.head.commit)
      && ReceiptOf(v, w.namespace, w.request) == Some((w.fingerprint, w.head)) && At(v, Content, w.head.commit).Some?
      && (forall i :: 0 <= i < |w.content| ==> At(v, Content, w.content[i].0) == Some(w.content[i].1))
      && (forall i :: 0 <= i < |w.claims| ==> At(v, Claims, w.claims[i].0) == Some(w.claims[i].1))
      && (!plan.Migrate? ==> SameOn(s, v, Migration))
  {
    if Acceptable(s, w, plan) && SameRecords(Applied(s, w, plan), v) {
      AppliedRows(s, v, w, plan);
    }
  }

  // Every source was at its named head, and copied completely if it was staged; it stays there, fenced
  // for the target.
  ghost predicate MigratedFrom(s: Store, v: Store, ns: Key, manifest: Key, sources: seq<(Key, Head)>)
  {
    forall i :: 0 <= i < |sources| ==>
      && HeadOf(s, sources[i].0) == HeadOf(v, sources[i].0) == Some(sources[i].1) && CompleteFor(s, sources[i].0, ns)
      && At(v, Migration, Ascii("neuron-fence") + [0] + sources[i].0) == Some(ns + manifest)
  }

  lemma ShapeOfSources(ns: Key, sources: seq<(Key, Head)>)
    ensures SourcesShape(ns, sources) <==>
            !(|| sources == [] || |sources| > 256 || (exists i :: 0 <= i < |sources| && sources[i].0 == ns)
              || exists i :: 0 <= i < |sources| - 1 && !Lt(sources[i].0, sources[i + 1].0))
  {
    hide Lt;
  }

  lemma Migrates(s: Store, w: Write, manifest: Key, sources: seq<(Key, Head)>)
    ensures Acceptable(s, w, Migrate(manifest, sources)) ==>
      && SourcesShape(w.namespace, sources) && (forall i :: 0 <= i < |sources| ==> HeadOf(s, sources[i].0) == Some(sources[i].1))
      && At(s, Migration, Ascii("status")) in [None, Some(Ascii("complete")), Some(Ascii("neuron-v1")), Some(Ascii("auth-v1"))]
  {
    if Acceptable(s, w, Migrate(manifest, sources)) {
      var v := Applied(s, w, Migrate(manifest, sources));
      SameSame(v);
      Migrated(s, v, w, manifest, sources);
      MigrationRaises(s, v, w, manifest, sources);
    }
  }

  lemma Migrated(s: Store, v: Store, w: Write, manifest: Key, sources: seq<(Key, Head)>)
    ensures Acceptable(s, w, Migrate(manifest, sources)) && SameRecords(Applied(s, w, Migrate(manifest, sources)), v) ==>
      && MigratedFrom(s, v, w.namespace, manifest, sources)
      && var before := At(s, Migration, Ascii("status"));
         At(v, Migration, Ascii("status")) == if before == None || before == Some(Ascii("complete")) then Some(Ascii("neuron-v1")) else before
  {
    hide Acceptable, Applied, SameRecords, HeadOf, CompleteFor, Ascii;
    if Acceptable(s, w, Migrate(manifest, sources)) && SameRecords(Applied(s, w, Migrate(manifest, sources)), v) {
      MigrationRaises(s, v, w, manifest, sources);
      forall i | 0 <= i < |sources|
        ensures HeadOf(s, sources[i].0) == HeadOf(v, sources[i].0) == Some(sources[i].1) && CompleteFor(s, sources[i].0, w.namespace)
        ensures At(v, Migration, Ascii("neuron-fence") + [0] + sources[i].0) == Some(w.namespace + manifest)
      {
        MigrationFences(s, v, w, manifest, sources, i);
        assert FenceKey(sources[i].0) == Ascii("neuron-fence") + [0] + sources[i].0;
      }
    }
  }

  class ApplicationStore {
    const db: Database

    constructor (db: Database)
      ensures this.db == db
    {
      this.db := db;
    }

    // apply_checked: a request is applied at most once, and a retry answers with its original head.
    method ApplyChecked(w: Write, allowRetry: bool, plan: Plan, outcome: Outcome) returns (r: Result<Head, Error>)
      requires db.Valid() && PlanShape(plan, w.namespace)
      modifies db
      ensures db.Valid() && Next(old(db.store), db.store)
      ensures old(db.failure).Some? ==> r.Err? && db.store == old(db.store) && db.failure == old(db.failure)
      ensures r.Err? && r.error != Unknown ==> SameRecords(old(db.store), db.store)
      ensures At(old(db.store), Requests, RequestKey(w.namespace, w.request)).Some? ==> db.store == old(db.store)
      ensures r.Ok? ==>
        || (allowRetry && ReceiptOf(old(db.store), w.namespace, w.request) == Some((w.fingerprint, r.value)))
        || (Acceptable(old(db.store), w, plan) && r.value == w.head && SameRecords(Applied(old(db.store), w, plan), db.store))
      ensures old(db.failure).None? && outcome.Clean? && At(old(db.store), Requests, RequestKey(w.namespace, w.request)).None?
              && Legible(old(db.store)) && (!plan.Records? || InBudget(w, plan))
              ==> (r.Ok? <==> Acceptable(old(db.store), w, plan))
      ensures allowRetry && WriteShape(w) && old(db.failure).None? && ReceiptOf(old(db.store), w.namespace, w.request).Some? ==>
        var receipt := ReceiptOf(old(db.store), w.namespace, w.request).value;
        r == if receipt.0 == w.fingerprint then Ok(receipt.1) else Err(Conflict)
      // Too large a write is refused as such, before anything is read.
      ensures |w.content| > 131_072 || |w.claims| > 4096 || ContentBytes(w.content) > 16_777_216 ==> r == Err(Limited) && db.store == old(db.store)
      // A new request is applied only over the head it expects, to a namespace that is not fenced.
      ensures var s, ns := old(db.store), w.namespace;
              (&& At(s, Requests, ns + w.request).None?
               && (|| HeadOf(s, ns) != w.expected || w.head.index != (match w.expected case None => 0 case Some(h) => h.index + 1)
                   || At(s, Migration, Ascii("neuron-fence") + [0] + ns).Some? || At(s, Migration, ['s' as int] + ns).Some?
                   || At(s, Migration, Ascii("status")) == Some(Ascii("export-v1")))) ==> r.Err? && db.store == old(db.store)
      ensures old(db.failure).None? && WriteShape(w) && Headed(old(db.store), w) ==>
        && (HeadOf(old(db.store), w.namespace) != w.expected ==> r == Err(HeadMismatch))
        && (HeadOf(old(db.store), w.namespace) == w.expected && w.head.index != NextIndex(w.expected) ==> r == Err(InvalidSequence))
      ensures At(old(db.store), Requests, RequestKey(w.namespace, w.request)).None? && !Acceptable(old(db.store), w, plan)
              ==> r.Err? && db.store == old(db.store)
      ensures r.Ok? && At(old(db.store), Requests, w.namespace + w.request).None? ==>
        && r.value == w.head && HeadOf(db.store, w.namespace) == Some(w.head)
        && At(db.store, History, w.namespace + BigEndian(w.head.index)) == Some(w.head.commit)
        && ReceiptOf(db.store, w.namespace, w.request) == Some((w.fingerprint, w.head)) && At(db.store, Content, w.head.commit).Some?
        && (forall i :: 0 <= i < |w.content| ==> At(db.store, Content, w.content[i].0) == Some(w.content[i].1))
        && (forall i :: 0 <= i < |w.claims| ==> At(db.store, Claims, w.claims[i].0) == Some(w.claims[i].1))
        && (!plan.Migrate? ==> SameOn(old(db.store), db.store, Migration))
    {
      hide Bounded, Patched, Applied, RequestKey, DecodeReceipt, InBudget, WriteShape, HeadExpected, AllPuttable, PlanReady, Legible, PutAll, Filled;
      hide IsFenced, Next, Advances, BigEndian, Ascii, SameOn, HeadOf, ContentBytes, Acceptable, SameRecords;
      ghost var s := db.store;
      ShapeMeans(w);
      KeyMeans(w);
      AllAcceptable(s, w, plan);
      var shaped := ValidateWrite(w);
      if !shaped {
        NextSame(s);
        SameSame(s);
        return Err(Limited);
      }
      r := Transact(w, allowRetry, plan, outcome);
      RowsApplied(s, db.store, w, plan);
    }

    // The write in one transaction of the database.
    method Transact(w: Write, allowRetry: bool, plan: Plan, outcome: Outcome) returns (r: Result<Head, Error>)
      requires db.Valid() && PlanShape(plan, w.namespace) && WriteShape(w)
      modifies db
      ensures db.Valid() && Next(old(db.store), db.store)
      ensures old(db.failure).Some? ==> r.Err? && db.store == old(db.store) && db.failure == old(db.failure)
      ensures r.Err? && r.error != Unknown ==> SameRecords(old(db.store), db.store)
      ensures At(old(db.store), Requests, RequestKey(w.namespace, w.request)).Some? ==> db.store == old(db.store)
      ensures r.Ok? ==>
        || (allowRetry && ReceiptOf(old(db.store), w.namespace, w.request) == Some((w.fingerprint, r.value)))
        || (Acceptable(old(db.store), w, plan) && r.value == w.head && SameRecords(Applied(old(db.store), w, plan), db.store))
      ensures old(db.failure).None? && outcome.Clean? && At(old(db.store), Requests, RequestKey(w.namespace, w.request)).None?
              && Legible(old(db.store)) && (!plan.Records? || InBudget(w, plan))
              ==> (r.Ok? <==> Acceptable(old(db.store), w, plan))
      ensures allowRetry && WriteShape(w) && old(db.failure).None? && ReceiptOf(old(db.store), w.namespace, w.request).Some? ==>
        var receipt := ReceiptOf(old(db.store), w.namespace, w.request).value;
        r == if receipt.0 == w.fingerprint then Ok(receipt.1) else Err(Conflict)
      ensures At(old(db.store), Requests, RequestKey(w.namespace, w.request)).None? && !Acceptable(old(db.store), w, plan)
              ==> r.Err? && db.store == old(db.store)
      ensures old(db.failure).None? && Headed(old(db.store), w) && HeadError(old(db.store), w).Some?
              ==> r == Err(HeadError(old(db.store), w).value)
    {
      hide Bounded, Patched, Applied, RequestKey, DecodeReceipt, Committed, InBudget, WriteShape, IsFenced, HeadExpected, AllPuttable, PlanReady, Legible, PutAll, Filled;
      hide Headed, HeadError;
      if !plan.Records? {
        ShapeInBudget(w, plan);
      }
      var begun := db.Begin();
      if begun.Err? {
        return Err(FromStorage(begun.error));
      }
      var tx := begun.value;
      r := Execute(tx, w, allowRetry, plan);
      if r.Err? {
        return;
      }
      CommittedRecords(db.hash, db.store, tx.changes);
      var done := db.Finish(tx, outcome);
      if done.Err? {
        r := Err(FromStorage(done.error));
      }
    }

    // A new request is applied exactly if it is acceptable.
    method Apply(w: Write, outcome: Outcome) returns (r: Result<Head, Error>)
      requires db.Valid()
      modifies db
      ensures db.Valid() && Next(old(db.store), db.store)
      ensures old(db.failure).None? && outcome.Clean? && Legible(old(db.store)) && At(old(db.store), Requests, RequestKey(w.namespace, w.request)).None?
              ==> (r.Ok? <==> Acceptable(old(db.store), w, Nothing))
    {
      hide Next, Applied, SameRecords, RequestKey, Acceptable, Legible;
      r := ApplyChecked(w, true, Nothing, outcome);
    }

    // A request that was applied before is refused.
    method ApplyOnce(w: Write, outcome: Outcome) returns (r: Result<Head, Error>)
      requires db.Valid()
      modifies db
      ensures db.Valid() && Next(old(db.store), db.store)
      ensures At(old(db.store), Requests, RequestKey(w.namespace, w.request)).Some? ==> r.Err? && db.store == old(db.store)
      ensures r.Ok? ==> HeadOf(old(db.store), w.namespace) == w.expected && HeadOf(db.store, w.namespace) == Some(w.head) && r.value == w.head
    {
      hide Next, Applied, SameRecords, RequestKey, HeadOf, Acceptable, WriteShape, Headed, InBudget, Legible, Ascii, BigEndian, SameOn, DecodeReceipt, ContentBytes;
      KeyMeans(w);
      AllAcceptable(db.store, w, Nothing);
      r := ApplyChecked(w, false, Nothing, outcome);
    }

    // Heads, completeness, fences and the target's own head move in one transaction.
    method ApplyMigration(w: Write, manifest: Key, sources: seq<(Key, Head)>, outcome: Outcome) returns (r: Result<Head, Error>)
      requires db.Valid()
      modifies db
      ensures db.Valid() && Next(old(db.store), db.store)
      ensures r.Ok? ==>
        || ReceiptOf(old(db.store), w.namespace, w.request) == Some((w.fingerprint, r.value))
        || (&& Acceptable(old(db.store), w, Migrate(manifest, sources)) && r.value == w.head
            && SameRecords(Applied(old(db.store), w, Migrate(manifest, sources)), db.store))
      ensures old(db.failure).None? && outcome.Clean? && Legible(old(db.store)) && At(old(db.store), Requests, RequestKey(w.namespace, w.request)).None?
              ==> (r.Ok? <==> Acceptable(old(db.store), w, Migrate(manifest, sources)))
      // No sources, too many, out of order, or the target among them.
      ensures (|| sources == [] || |sources| > 256 || (exists i :: 0 <= i < |sources| && sources[i].0 == w.namespace)
               || exists i :: 0 <= i < |sources| - 1 && !Lt(sources[i].0, sources[i + 1].0)) ==> r == Err(Limited) && db.store == old(db.store)
      // A source at another head, or a status no reader understands, refuses a new migration.
      ensures var s := old(db.store);
              var known := [None, Some(Ascii("complete")), Some(Ascii("neuron-v1")), Some(Ascii("auth-v1"))];
              (&& At(s, Requests, w.namespace + w.request).None?
               && (|| (exists i :: 0 <= i < |sources| && HeadOf(s, sources[i].0) != Some(sources[i].1))
                   || At(s, Migration, Ascii("status")) !in known)) ==> r.Err? && db.store == old(db.store)
      ensures r.Ok? && At(old(db.store), Requests, w.namespace + w.request).None? ==>
        && HeadOf(old(db.store), w.namespace) == w.expected && HeadOf(db.store, w.namespace) == Some(w.head)
        && MigratedFrom(old(db.store), db.store, w.namespace, manifest, sources)
        && var status := At(old(db.store), Migration, Ascii("status"));
           At(db.store, Migration, Ascii("status")) == if status == None || status == Some(Ascii("complete")) then Some(Ascii("neuron-v1")) else status
    {
      hide Next, SourcesShape, Applied, SameRecords, RequestKey, Legible, WriteShape, IsFenced, HeadExpected, AllPuttable, PlanReady, PutAll, Filled, DecodeReceipt;
      hide Acceptable, HeadOf, Headed, Ascii, BigEndian, SameOn, ContentBytes, MigratedFrom, Lt;
      ghost var s := db.store;
      KeyMeans(w);
      ShapeOfSources(w.namespace, sources);
      Migrates(s, w, manifest, sources);
      var shaped := CheckSources(w.namespace, sources);
      if !shaped {
        NextSame(db.store);
        return Err(Limited);
      }
      r := ApplyChecked(w, true, Migrate(manifest, sources), outcome);
      Migrated(s, db.store, w, manifest, sources);
    }
  }
}
