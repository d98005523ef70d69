// The entries of a dimension, assembled from its sorted record map.
module Dimensions {
  import opened Wrappers
  import opened Bytes
  import opened Integers
  import opened Sorting
  import opened Tables
  import opened Graph
  import KeyedMaps

  // ---------------------------------------------------------------- the record maps

  // Heights are keys of the time dimension alone.
  datatype Shelf = Keyed(rows: map<Key, Row>) | ByHeight(roots: map<u64, Key>)

  // The record map of a dimension of the graph state. The rows of the four dimensions that no
  // transition writes are given.
  function ShelfOf(s: State, dim: Dim, fixed: map<Key, Row>): Shelf
  {
    match dim
    case Particles => Keyed(map k | k in s.particles :: ParticleRow(s.particles[k]))
    case AxonsOut => Keyed(map k | k in s.axonsOut :: ListRow(s.axonsOut[k]))
    case AxonsIn => Keyed(map k | k in s.axonsIn :: ListRow(s.axonsIn[k]))
    case Neurons => Keyed(map k | k in s.neurons :: NeuronRow(s.neurons[k]))
    case Time => ByHeight(s.time)
    case Signals => Keyed(map k | k in s.signals :: SignalRow(s.signals[k]))
    case Balances => Keyed(map k | k in s.balances :: BalanceRow(s.balances[k]))
    case _ => Keyed(fixed)
  }

  predicate RowOk(dim: Dim, row: Row)
  {
    RowOf(dim, row) && (row.ListRow? ==> 8 * |row.l| + 2 < U64_BOUND)
  }

  predicate ShelfOk(dim: Dim, shelf: Shelf)
  {
    match shelf
    case Keyed(rows) => !dim.Time? && forall k :: k in rows ==> RowOk(dim, rows[k])
    case ByHeight(_) => dim.Time?
  }

  // Every dimension of a state is a shelf of its own rows, as long as its lists can be counted.
  lemma StateShelves(s: State, dim: Dim, fixed: map<Key, Row>)
    requires forall k :: k in fixed ==> RowOk(dim, fixed[k])
    requires forall k :: k in s.axonsOut ==> 8 * |s.axonsOut[k]| + 2 < U64_BOUND
    requires forall k :: k in s.axonsIn ==> 8 * |s.axonsIn[k]| + 2 < U64_BOUND
    ensures ShelfOk(dim, ShelfOf(s, dim, fixed))
  {
  }

  // The record under a key of the table.
  function RowAt(shelf: Shelf, key: Key): Option<Row>
  {
    match shelf
    case Keyed(rows) => if key in rows then Some(rows[key]) else None
    case ByHeight(roots) =>
      if Padded(key) && DecodeU64(key[..8]) in roots then Some(TimeRow(roots[DecodeU64(key[..8])])) else None
  }

  // ---------------------------------------------------------------- in order

  function KeyOrder(): (Key, Key) -> bool
  {
    (a: Key, b: Key) => Lt(a, b)
  }

  function HeightOrder(): (u64, u64) -> bool
  {
    (a: u64, b: u64) => a < b
  }

  lemma OrdersTotal()
    ensures StrictTotal(KeyOrder()) && StrictTotal(HeightOrder())
  {
    hide Lt;
    forall a: Key, b: Key
      ensures KeyOrder()(a, b) ==> !KeyOrder()(b, a)
      ensures a == b || KeyOrder()(a, b) || KeyOrder()(b, a)
    {
      LtTotal(a, b);
    }
    forall a: Key, b: Key, c: Key | KeyOrder()(a, b) && KeyOrder()(b, c)
      ensures KeyOrder()(a, c)
    {
      LtTrans(a, b, c);
    }
  }

  function KeyedEntries(rows: map<Key, Row>, ks: seq<Key>): (es: seq<Entry>)
    requires forall k :: k in ks ==> k in rows && (rows[k].ListRow? ==> |rows[k].l| < U64_BOUND)
  {
    seq(|ks|, i requires 0 <= i < |ks| => Entry(ks[i], RowFields(rows[ks[i]])))
  }

  function HeightEntries(roots: map<u64, Key>, hs: seq<u64>): (es: seq<Entry>)
    requires forall h :: h in hs ==> h in roots
  {
    seq(|hs|, i requires 0 <= i < |hs| => Entry(KeyedMaps.HeightKey(hs[i]), RowFields(TimeRow(roots[hs[i]]))))
  }

  // dim_entries: ascending keys, or ascending heights.
  ghost function Entries(dim: Dim, shelf: Shelf): (es: seq<Entry>)
    requires ShelfOk(dim, shelf)
  {
    OrdersTotal();
    match shelf
    case Keyed(rows) =>
      SortedFacts(KeyOrder(), rows.Keys);
      KeyedEntries(rows, Sorted(KeyOrder(), rows.Keys))
    case ByHeight(roots) =>
      SortedFacts(HeightOrder(), roots.Keys);
      HeightEntries(roots, Sorted(HeightOrder(), roots.Keys))
  }

  method ListEntries(dim: Dim, shelf: Shelf) returns (es: seq<Entry>)
    requires ShelfOk(dim, shelf)
    ensures es == Entries(dim, shelf)
  {
    hide StrictTotal, Sorted, RowFields, KeyedMaps.HeightKey;
    OrdersTotal();
    match shelf {
      case Keyed(rows) =>
        SortedFacts(KeyOrder(), rows.Keys);
        var ks := Sort(KeyOrder(), rows.Keys);
        es := KeyedEntries(rows, ks);
      case ByHeight(roots) =>
        SortedFacts(HeightOrder(), roots.Keys);
        var hs := Sort(HeightOrder(), roots.Keys);
        es := HeightEntries(roots, hs);
    }
  }

  lemma HeightKeyFacts(h: u64)
    ensures var key := KeyedMaps.HeightKey(h);
            Padded(key) && DecodeU64(key[..8]) == h && SortKey(Time, key) == Some(BigEndian(h))
  {
    var key := KeyedMaps.HeightKey(h);
    assert key[..8] == EncodeU64(h);
    U64RoundTrip(h);
  }

  lemma PaddedIsHeight(key: Key)
    requires Padded(key)
    ensures KeyedMaps.HeightKey(DecodeU64(key[..8])) == key
  {
    U64Canonical(key[..8]);
    assert key == key[..8] + key[8..];
  }

  // The entries of a dimension come in the order its table must have.
  lemma EntriesInOrder(dim: Dim, shelf: Shelf)
    requires ShelfOk(dim, shelf)
    ensures InOrder(dim, Entries(dim, shelf))
  {
    hide Lt, Sorted, RowFields, ValuesOk;
    OrdersTotal();
    var es := Entries(dim, shelf);
    match shelf {
      case Keyed(rows) =>
        KeyedInOrder(dim, rows);
      case ByHeight(roots) =>
        HeightsInOrder(roots);
    }
  }

  lemma KeyedInOrder(dim: Dim, rows: map<Key, Row>)
    requires ShelfOk(dim, Keyed(rows))
    ensures InOrder(dim, Entries(dim, Keyed(rows)))
  {
    hide Lt, Sorted, RowFields, ValuesOk;
    OrdersTotal();
    SortedFacts(KeyOrder(), rows.Keys);
    var ks, es := Sorted(KeyOrder(), rows.Keys), Entries(dim, Keyed(rows));
    forall i | 0 <= i < |es|
      ensures EntryOk(dim, es[i])
    {
      assert ks[i] in ks;
      RowValues(dim, rows[ks[i]]);
    }
    forall i, j | 0 <= i < j < |es|
      ensures Precedes(dim, es[i].key, es[j].key)
    {
      assert KeyOrder()(ks[i], ks[j]);
    }
  }

  lemma HeightsInOrder(roots: map<u64, Key>)
    ensures InOrder(Time, Entries(Time, ByHeight(roots)))
  {
    hide Lt, Sorted, RowFields, ValuesOk, KeyedMaps.HeightKey, SortKey, BigEndian;
    OrdersTotal();
    SortedFacts(HeightOrder(), roots.Keys);
    var hs, es := Sorted(HeightOrder(), roots.Keys), Entries(Time, ByHeight(roots));
    forall i | 0 <= i < |es|
      ensures EntryOk(Time, es[i])
    {
      assert hs[i] in hs;
      HeightKeyFacts(hs[i]);
      RowValues(Time, TimeRow(roots[hs[i]]));
    }
    forall i, j | 0 <= i < j < |es|
      ensures Precedes(Time, es[i].key, es[j].key)
    {
      assert HeightOrder()(hs[i], hs[j]);
      HeightKeyFacts(hs[i]);
      HeightKeyFacts(hs[j]);
      BigEndianOrder(hs[i], hs[j]);
    }
  }

  // Exactly the stored records are entries, each under its key with its own fields.
  lemma EntryOf(dim: Dim, shelf: Shelf, key: Key) returns (j: nat)
    requires ShelfOk(dim, shelf)
    ensures var es := Entries(dim, shelf);
            match RowAt(shelf, key)
            case Some(row) => RowOk(dim, row) && j < |es| && es[j] == Entry(key, RowFields(row))
            case None => forall i :: 0 <= i < |es| ==> es[i].key != key
  {
    hide Lt, Sorted, RowFields, Padded, KeyedMaps.HeightKey, DecodeU64;
    OrdersTotal();
    j := 0;
    var es := Entries(dim, shelf);
    match shelf {
      case Keyed(rows) =>
        SortedFacts(KeyOrder(), rows.Keys);
        var ks := Sorted(KeyOrder(), rows.Keys);
        if key in rows {
          assert key in ks;
          j :| 0 <= j < |ks| && ks[j] == key;
        } else {
          assert forall i :: 0 <= i < |ks| ==> ks[i] in ks;
        }
      case ByHeight(roots) =>
        SortedFacts(HeightOrder(), roots.Keys);
        var hs := Sorted(HeightOrder(), roots.Keys);
        if RowAt(shelf, key).Some? {
          PaddedIsHeight(key);
          var h := DecodeU64(key[..8]);
          assert h in hs;
          j :| 0 <= j < |hs| && hs[j] == h;
        } else {
          forall i | 0 <= i < |hs|
            ensures es[i].key != key
          {
            assert hs[i] in hs;
            HeightKeyFacts(hs[i]);
          }
        }
    }
  }
}
