// The durable map of the storage engine: tables, change sets and their identity.
module Stores {
  import opened Wrappers
  import opened Bytes
  import opened Integers
  import opened Sorting

  const MAX_TRANSACTION_BYTES := 32 * 1024 * 1024
  const MAX_TRANSACTION_KEYS := 150_000
  const MAX_BYTES_VALUE := 16 * 1024 * 1024 + 1
  const MAX_KEY_BYTES := 64

  datatype RecordDomain = NativeState | NativeHistory | NativeRequests | NativeMetadata | NativeBalances | NativeBlocks | NativeExport

  type Dimension = d: int | 0 <= d < 14

  datatype Table =
    | Shard(d: Dimension)
    | Metadata | Content | Heads | History | Requests | Claims | Migration
    | Native(domain: RecordDomain)

  datatype Slot = Slot(table: Table, key: seq<byte>)

  // What the engine holds, and what a transaction writes: a value, or None for a removal.
  type Store = map<Slot, seq<byte>>
  type Changes = map<Slot, Option<seq<byte>>>

  function At(s: Store, t: Table, k: seq<byte>): Option<seq<byte>>
  {
    if Slot(t, k) in s then Some(s[Slot(t, k)]) else None
  }

  // The store after a change set.
  function Patched(s: Store, c: Changes): (r: Store)
  {
    map x | x in s.Keys + c.Keys && (x in c ==> c[x].Some?) :: if x in c then c[x].value else s[x]
  }

  lemma PatchedAt(s: Store, c: Changes, t: Table, k: seq<byte>)
    ensures At(Patched(s, c), t, k) == if Slot(t, k) in c then c[Slot(t, k)] else At(s, t, k)
  {
  }

  // ---------------------------------------------------------------- table names

  function ShardName(d: Dimension): string
  {
    if d == 0 then "particles"
    else if d == 1 then "axons_out"
    else if d == 2 then "axons_in"
    else if d == 3 then "neurons"
    else if d == 4 then "locations"
    else if d == 5 then "coins"
    else if d == 6 then "cards"
    else if d == 7 then "files"
    else if d == 8 then "time"
    else if d == 9 then "signals"
    else if d == 10 then "commitments"
    else if d == 11 then "nullifiers"
    else if d == 12 then "intents"
    else "ephemeral"
  }

  function Name(t: Table): string
  {
    match t
    case Shard(d) => ShardName(d)
    case Metadata => "bbg_storage_v1"
    case Content => "application_content"
    case Heads => "application_heads"
    case History => "application_history"
    case Requests => "application_requests"
    case Claims => "application_unique_claims"
    case Migration => "bbg_import_v1"
    case Native(NativeState) => "native_state_v1"
    case Native(NativeHistory) => "native_history_v1"
    case Native(NativeRequests) => "native_requests_v1"
    case Native(NativeMetadata) => "native_metadata_v1"
    case Native(NativeBalances) => "native_balances_v1"
    case Native(NativeBlocks) => "native_blocks_v1"
    case Native(NativeExport) => "native_export_v1"
  }

  function Ascii(s: string): (bs: seq<byte>)
    ensures |bs| == |s|
  {
    seq(|s|, i requires 0 <= i < |s| => s[i] as int % 256)
  }

  // The length, the middle and the last letter tell every table name from every other.
  function NameCode(name: seq<byte>): nat
    requires name != []
  {
    65536 * |name| + 256 * (name[|name| / 2] as int) + name[|name| - 1] as int
  }

  function TableOf(c: nat): Option<Table>
  {
    if c == 616819 then Some(Shard(0))
    else if c == 619380 then Some(Shard(1))
    else if c == 553838 then Some(Shard(2))
    else if c == 488051 then Some(Shard(3))
    else if c == 619635 then Some(Shard(4))
    else if c == 354675 then Some(Shard(5))
    else if c == 356979 then Some(Shard(6))
    else if c == 355443 then Some(Shard(7))
    else if c == 290149 then Some(Shard(8))
    else if c == 487027 then Some(Shard(9))
    else if c == 750707 then Some(Shard(10))
    else if c == 681587 then Some(Shard(11))
    else if c == 484723 then Some(Shard(12))
    else if c == 617836 then Some(Shard(13))
    else if c == 946737 then Some(Metadata)
    else if c == 1273716 then Some(Content)
    else if c == 1141107 then Some(Heads)
    else if c == 1273721 then Some(History)
    else if c == 1338995 then Some(Requests)
    else if c == 1668467 then Some(Claims)
    else if c == 880689 then Some(Migration)
    else if c == 1012529 then Some(Native(NativeState))
    else if c == 1141041 then Some(Native(NativeHistory))
    else if c == 1208625 then Some(Native(NativeRequests))
    else if c == 1209393 then Some(Native(NativeMetadata))
    else if c == 1207345 then Some(Native(NativeBalances))
    else if c == 1076273 then Some(Native(NativeBlocks))
    else if c == 1079345 then Some(Native(NativeExport))
    else None
  }

  lemma ShardDigest(d: Dimension)
    ensures |ShardName(d)| > 0 && TableOf(NameCode(Ascii(ShardName(d)))) == Some(Shard(d))
  {
    if d < 7 {
      LowShardDigest(d);
    }
  }

  lemma LowShardDigest(d: Dimension)
    requires d < 7
    ensures |ShardName(d)| > 0 && TableOf(NameCode(Ascii(ShardName(d)))) == Some(Shard(d))
  {
  }

  lemma NativeDigest(r: RecordDomain)
    ensures |Name(Native(r))| > 0 && TableOf(NameCode(Ascii(Name(Native(r))))) == Some(Native(r))
  {
  }

  lemma NameCoded(t: Table)
    ensures |Name(t)| > 0 && TableOf(NameCode(Ascii(Name(t)))) == Some(t)
  {
    hide ShardName;
    match t
    case Shard(d) => ShardDigest(d);
    case Native(r) => NativeDigest(r);
    case _ =>
  }

  lemma NamesApart(t: Table, u: Table)
    requires Ascii(Name(t)) == Ascii(Name(u))
    ensures t == u
  {
    hide Name, NameCode, TableOf, Ascii;
    NameCoded(t);
    NameCoded(u);
  }

  // ---------------------------------------------------------------- the identity of a change set

  // A record the engine takes: bounded key and value.
  predicate Fits(k: seq<byte>, v: Option<seq<byte>>)
  {
    |k| <= MAX_KEY_BYTES && (v.Some? ==> |v.value| <= MAX_BYTES_VALUE)
  }

  predicate WellSized(c: Changes)
  {
    forall x :: x in c ==> Fits(x.key, c[x])
  }

  // Slots in the order of table name, then key.
  predicate SlotBefore(a: Slot, b: Slot)
  {
    Lt(Ascii(Name(a.table)), Ascii(Name(b.table))) || (a.table == b.table && Lt(a.key, b.key))
  }

  function SlotOrder(): (Slot, Slot) -> bool
  {
    (a: Slot, b: Slot) => SlotBefore(a, b)
  }

  lemma SlotTotal(a: Slot, b: Slot)
    ensures SlotBefore(a, b) ==> !SlotBefore(b, a)
    ensures a == b || SlotBefore(a, b) || SlotBefore(b, a)
  {
    hide Lt, Ascii, Name;
    LtTotal(Ascii(Name(a.table)), Ascii(Name(b.table)));
    LtTotal(a.key, b.key);
    if Ascii(Name(a.table)) == Ascii(Name(b.table)) {
      NamesApart(a.table, b.table);
    }
  }

  lemma SlotTransitive(a: Slot, b: Slot, c: Slot)
    requires SlotBefore(a, b) && SlotBefore(b, c)
    ensures SlotBefore(a, c)
  {
    hide Lt, Ascii, Name;
    if Lt(Ascii(Name(a.table)), Ascii(Name(b.table))) && Lt(Ascii(Name(b.table)), Ascii(Name(c.table))) {
      LtTrans(Ascii(Name(a.table)), Ascii(Name(b.table)), Ascii(Name(c.table)));
    } else if a.table == b.table == c.table && Lt(a.key, b.key) && Lt(b.key, c.key) {
      LtTrans(a.key, b.key, c.key);
    }
  }

  lemma SlotOrderTotal()
    ensures StrictTotal(SlotOrder())
  {
    hide SlotBefore;
    forall a, b
      ensures SlotOrder()(a, b) ==> !SlotOrder()(b, a)
      ensures a == b || SlotOrder()(a, b) || SlotOrder()(b, a)
    {
      SlotTotal(a, b);
    }
    forall a, b, c | SlotOrder()(a, b) && SlotOrder()(b, c)
      ensures SlotOrder()(a, c)
    {
      SlotTransitive(a, b, c);
    }
  }

  // A length-prefixed byte string.
  function Prefixed(bs: seq<byte>): seq<byte>
  {
    EncodeU64(|bs| % U64_BOUND) + bs
  }

  lemma PrefixedApart(a: seq<byte>, x: seq<byte>, b: seq<byte>, y: seq<byte>)
    requires |a| < U64_BOUND && |b| < U64_BOUND && Prefixed(a) + x == Prefixed(b) + y
    ensures a == b && x == y
  {
    hide EncodeU64;
    var p, q := Prefixed(a) + x, Prefixed(b) + y;
    assert p[..8] == EncodeU64(|a|) && q[..8] == EncodeU64(|b|);
    U64RoundTrip(|a|);
    U64RoundTrip(|b|);
    assert a == p[8..8 + |a|] && b == q[8..8 + |b|];
    assert x == p[8 + |a|..] && y == q[8 + |b|..];
  }

  function Payload(v: Option<seq<byte>>): seq<byte>
  {
    match v case None => [0] case Some(b) => [1] + Prefixed(b)
  }

  lemma PayloadParts(v: Option<seq<byte>>, x: seq<byte>)
    ensures (Payload(v) + x)[0] == if v.Some? then 1 else 0
    ensures (Payload(v) + x)[1..] == if v.Some? then Prefixed(v.value) + x else x
  {
    hide Prefixed;
  }

  lemma PayloadApart(v: Option<seq<byte>>, x: seq<byte>, w: Option<seq<byte>>, y: seq<byte>)
    requires (v.Some? ==> |v.value| < U64_BOUND) && (w.Some? ==> |w.value| < U64_BOUND)
    requires Payload(v) + x == Payload(w) + y
    ensures v == w && x == y
  {
    hide Prefixed;
    PayloadParts(v, x);
    PayloadParts(w, y);
    if v.Some? {
      PrefixedApart(v.value, x, w.value, y);
    }
  }

  function Row(x: Slot, v: Option<seq<byte>>): seq<byte>
  {
    Prefixed(Ascii(Name(x.table))) + (Prefixed(x.key) + Payload(v))
  }

  lemma NameShort(t: Table)
    ensures |Name(t)| < 32
  {
  }

  lemma RowApart(x: Slot, v: Option<seq<byte>>, more: seq<byte>, y: Slot, w: Option<seq<byte>>, rest: seq<byte>)
    requires Fits(x.key, v) && Fits(y.key, w) && Row(x, v) + more == Row(y, w) + rest
    ensures x == y && v == w && more == rest
  {
    hide Name, Ascii, Prefixed, Payload;
    NameShort(x.table);
    NameShort(y.table);
    var n, m := Ascii(Name(x.table)), Ascii(Name(y.table));
    var a, b := Prefixed(x.key) + (Payload(v) + more), Prefixed(y.key) + (Payload(w) + rest);
    assert Row(x, v) + more == Prefixed(n) + a && Row(y, w) + rest == Prefixed(m) + b;
    PrefixedApart(n, a, m, b);
    NamesApart(x.table, y.table);
    PrefixedApart(x.key, Payload(v) + more, y.key, Payload(w) + rest);
    PayloadApart(v, more, w, rest);
  }

  function RowsOf(c: Changes, xs: seq<Slot>): seq<byte>
    requires forall x :: x in xs ==> x in c
  {
    if xs == [] then [] else Row(xs[0], c[xs[0]]) + RowsOf(c, xs[1..])
  }

  // The hashed rows determine the change set.
  lemma {:induction false} RowsApart(c: Changes, xs: seq<Slot>, d: Changes, ys: seq<Slot>)
    requires (forall x :: x in xs ==> x in c) && (forall y :: y in ys ==> y in d)
    requires WellSized(c) && WellSized(d) && RowsOf(c, xs) == RowsOf(d, ys)
    ensures xs == ys && forall x :: x in xs ==> c[x] == d[x]
  {
    hide Row, Fits;
    if xs == [] || ys == [] {
      RowNonEmpty(c, xs);
      RowNonEmpty(d, ys);
    } else {
      RowApart(xs[0], c[xs[0]], RowsOf(c, xs[1..]), ys[0], d[ys[0]], RowsOf(d, ys[1..]));
      RowsApart(c, xs[1..], d, ys[1..]);
      assert xs == [xs[0]] + xs[1..] && ys == [ys[0]] + ys[1..];
    }
  }

  lemma RowNonEmpty(c: Changes, xs: seq<Slot>)
    requires forall x :: x in xs ==> x in c
    ensures RowsOf(c, xs) == [] <==> xs == []
  {
  }

  // The hashed bytes of a change set: its rows by table name and key.
  ghost function Preimage(c: Changes): seq<byte>
  {
    SlotOrderTotal();
    SortedFacts(SlotOrder(), c.Keys);
    Ascii("bbg/database-batch/v1") + [0] + RowsOf(c, Sorted(SlotOrder(), c.Keys))
  }

  // Distinct change sets hash distinct bytes.
  lemma PreimageInjective(c: Changes, d: Changes)
    requires WellSized(c) && WellSized(d) && Preimage(c) == Preimage(d)
    ensures c == d
  {
    hide RowsOf, Ascii, SlotOrder, StrictTotal;
    SlotOrderTotal();
    var lt := SlotOrder();
    var xs, ys := Sorted(lt, c.Keys), Sorted(lt, d.Keys);
    SortedFacts(lt, c.Keys);
    SortedFacts(lt, d.Keys);
    var head := Ascii("bbg/database-batch/v1") + [0];
    assert RowsOf(c, xs) == Preimage(c)[|head|..] && RowsOf(d, ys) == Preimage(d)[|head|..];
    RowsApart(c, xs, d, ys);
    assert c.Keys == d.Keys;
  }
}
