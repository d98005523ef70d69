// Flat dimension tables: the printer, the layout of each record, and what a table decodes to.
module Tables {
  import opened Wrappers
  import opened Bytes
  import opened Integers
  import opened Records
  import D = Digests

  datatype Dim = Particles | AxonsOut | AxonsIn | Neurons | Locations | Coins | Cards | Files | Time | Signals | Balances

  const TABLE_VERSION: u64 := 2
  const HEADER_FIELDS := 3
  const KEY_FIELDS := 8

  datatype Entry = Entry(key: Key, values: seq<u64>)

  // ---------------------------------------------------------------- printing

  // A key as eight little-endian u32 limbs.
  function KeyFields(key: Key): (fs: seq<u64>)
    ensures |fs| == KEY_FIELDS && forall i :: 0 <= i < |fs| ==> fs[i] < U32_BOUND
  {
    seq(KEY_FIELDS, i requires 0 <= i < KEY_FIELDS => D.KeyLimb(key, i))
  }

  function EntryFields(e: Entry): seq<u64>
  {
    KeyFields(e.key) + e.values
  }

  function Body(es: seq<Entry>): seq<u64>
  {
    if es == [] then [] else EntryFields(es[0]) + Body(es[1..])
  }

  predicate Printable(es: seq<Entry>)
  {
    HEADER_FIELDS + |Body(es)| < U64_BOUND && |es| < U64_BOUND
  }

  // dim_serialize: version, length, entry count, then the entries.
  function Serialize(es: seq<Entry>): seq<u64>
    requires Printable(es)
  {
    [TABLE_VERSION, HEADER_FIELDS + |Body(es)|, |es|] + Body(es)
  }

  lemma {:induction false} BodyConcat(xs: seq<Entry>, ys: seq<Entry>)
    ensures Body(xs + ys) == Body(xs) + Body(ys)
  {
    if xs == [] {
      assert xs + ys == ys;
    } else {
      assert (xs + ys)[1..] == xs[1..] + ys;
      BodyConcat(xs[1..], ys);
    }
  }

  method DimSerialize(es: seq<Entry>) returns (fields: seq<u64>)
    requires Printable(es)
    ensures fields == Serialize(es)
  {
    var count, i := HEADER_FIELDS, 0;
    while i < |es|
      invariant 0 <= i <= |es| && count + |Body(es[i..])| == HEADER_FIELDS + |Body(es)|
    {
      assert es[i..][1..] == es[i + 1..];
      count := count + KEY_FIELDS + |es[i].values|;
      i := i + 1;
    }
    fields := [TABLE_VERSION, count, |es|];
    ghost var head := fields;
    i := 0;
    while i < |es|
      invariant 0 <= i <= |es| && fields + Body(es[i..]) == head + Body(es)
    {
      assert es[i..][1..] == es[i + 1..];
      assert fields + Body(es[i..]) == (fields + KeyFields(es[i].key) + es[i].values) + Body(es[i + 1..]);
      fields := fields + KeyFields(es[i].key) + es[i].values;
      i := i + 1;
    }
    assert fields == fields + Body(es[i..]);
  }

  // ---------------------------------------------------------------- record layouts

  datatype Row =
    | ParticleRow(p: ParticleRecord)
    | ListRow(l: seq<Key>)
    | NeuronRow(n: NeuronRecord)
    | LocationRow(lat: u32, lon: u32)
    | CoinRow(supply: u64)
    | CardRow(owner: Key, particle: Key, author: Key, valence: byte, since: u64)
    | FileRow(available: u64, chunks: u64)
    | TimeRow(root: Key)
    | SignalRow(s: SignalRecord)
    | BalanceRow(b: u64)

  predicate RowOf(dim: Dim, row: Row)
  {
    match dim
    case Particles => row.ParticleRow?
    case AxonsOut => row.ListRow?
    case AxonsIn => row.ListRow?
    case Neurons => row.NeuronRow?
    case Locations => row.LocationRow?
    case Coins => row.CoinRow?
    case Cards => row.CardRow?
    case Files => row.FileRow?
    case Time => row.TimeRow?
    case Signals => row.SignalRow?
    case Balances => row.BalanceRow?
  }

  // Each u64 as two u32 limbs.
  function Scalars(vs: seq<u64>): (fs: seq<u64>)
    ensures |fs| == 2 * |vs| && forall i :: 0 <= i < |fs| ==> fs[i] < U32_BOUND
  {
    if vs == [] then [] else [vs[0] % U32_BOUND, vs[0] / U32_BOUND] + Scalars(vs[1..])
  }

  function ListFields(l: seq<Key>): (fs: seq<u64>)
    ensures |fs| == 8 * |l| && forall i :: 0 <= i < |fs| ==> fs[i] < U32_BOUND
  {
    if l == [] then [] else KeyFields(l[0]) + ListFields(l[1..])
  }

  // dim_entries: the value fields of a record.
  function RowFields(row: Row): seq<u64>
    requires row.ListRow? ==> |row.l| < U64_BOUND
  {
    match row
    case ParticleRow(p) => Scalars([p.energy, p.piStar, p.weight, p.sYes, p.sNo, p.metaScore])
    case ListRow(l) => Scalars([|l|]) + ListFields(l)
    case NeuronRow(n) => Scalars([n.focus, n.karma, n.stake, n.nonce])
    case LocationRow(lat, lon) => Scalars([lat, lon])
    case CoinRow(supply) => Scalars([supply])
    case CardRow(owner, particle, author, valence, since) =>
      KeyFields(owner) + KeyFields(particle) + KeyFields(author) + Scalars([valence, since])
    case FileRow(available, chunks) => Scalars([available, chunks])
    case TimeRow(root) => KeyFields(root)
    case SignalRow(s) =>
      KeyFields(s.neuron) + KeyFields(s.network) + Scalars([s.linkCount, s.blockHeight]) + KeyFields(s.proofHash) + Scalars([s.step])
    case BalanceRow(b) => Scalars([b])
  }

  // How many value fields follow, read from the fields themselves.
  function Width(dim: Dim, rest: seq<u64>): Option<nat>
  {
    match dim
    case Particles => Some(12)
    case Neurons => Some(8)
    case Locations => Some(4)
    case Coins => Some(2)
    case Cards => Some(28)
    case Files => Some(4)
    case Time => Some(8)
    case Signals => Some(30)
    case Balances => Some(2)
    case _ =>
      if |rest| < 2 || rest[0] >= U32_BOUND || rest[1] >= U32_BOUND then None
      else
        var n := rest[0] + U32_BOUND * rest[1];
        if 8 * n + 2 < U64_BOUND then Some(8 * n + 2) else None
  }

  // The value fields of one record of a dimension.
  predicate ValuesOk(dim: Dim, values: seq<u64>)
  {
    Width(dim, values) == Some(|values|) && forall i :: 0 <= i < |values| ==> values[i] < U32_BOUND
  }

  // Every record prints as value fields of its dimension's width.
  lemma RowValues(dim: Dim, row: Row)
    requires RowOf(dim, row) && (row.ListRow? ==> 8 * |row.l| + 2 < U64_BOUND)
    ensures ValuesOk(dim, RowFields(row))
  {
    match row
    case ListRow(l) =>
      var n := |l|;
      assert Scalars([n]) == [n % U32_BOUND, n / U32_BOUND] + Scalars([]);
      assert RowFields(row)[0] == n % U32_BOUND && RowFields(row)[1] == n / U32_BOUND;
      assert n == n % U32_BOUND + U32_BOUND * (n / U32_BOUND);
    case _ =>
  }

  // ---------------------------------------------------------------- order

  predicate Padded(key: Key)
  {
    forall i :: 8 <= i < 32 ==> key[i] == 0
  }

  // The order of a dimension's entries: byte order of the key, or the height a time key holds.
  function SortKey(dim: Dim, key: Key): Option<seq<byte>>
  {
    if dim.Time? then (if Padded(key) then Some(BigEndian(DecodeU64(key[..8]))) else None) else Some(key)
  }

  predicate Precedes(dim: Dim, a: Key, b: Key)
  {
    SortKey(dim, a).Some? && SortKey(dim, b).Some? && Lt(SortKey(dim, a).value, SortKey(dim, b).value)
  }

  predicate EntryOk(dim: Dim, e: Entry)
  {
    SortKey(dim, e.key).Some? && ValuesOk(dim, e.values)
  }

  ghost predicate InOrder(dim: Dim, es: seq<Entry>)
  {
    (forall i :: 0 <= i < |es| ==> EntryOk(dim, es[i])) && forall i, j :: 0 <= i < j < |es| ==> Precedes(dim, es[i].key, es[j].key)
  }

  lemma PrecedesFacts(dim: Dim, a: Key, b: Key, c: Key)
    ensures Precedes(dim, a, b) && Precedes(dim, b, c) ==> Precedes(dim, a, c)
    ensures Precedes(dim, a, b) ==> a != b
  {
    hide Lt, SortKey;
    if Precedes(dim, a, b) {
      LtTotal(SortKey(dim, a).value, SortKey(dim, b).value);
      if Precedes(dim, b, c) {
        LtTrans(SortKey(dim, a).value, SortKey(dim, b).value, SortKey(dim, c).value);
      }
    }
  }

  // The fields after the header are the strictly ascending entries es, and the header counts them.
  ghost predicate Decodes(fields: seq<u64>, dim: Dim, es: seq<Entry>)
  {
    |fields| >= HEADER_FIELDS && fields[2] == |es| && fields[HEADER_FIELDS..] == Body(es) && InOrder(dim, es)
  }

  lemma SerializedDecodes(dim: Dim, es: seq<Entry>)
    requires Printable(es) && InOrder(dim, es)
    ensures Decodes(Serialize(es), dim, es)
  {
    assert Serialize(es)[HEADER_FIELDS..] == Body(es);
  }
}
