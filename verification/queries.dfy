// Locating an entity's cell: the prover's walk over entries and the verifier's parser of a table.
module Queries {
  import opened Wrappers
  import opened Bytes
  import opened Integers
  import opened Tables
  import opened Dimensions
  import opened Graph
  import D = Digests

  // The value column of an entity's primary cell.
  function Column(dim: Dim): nat { if dim.Signals? then 16 else 0 }

  // The cell of the first entry with this key, walking from an offset.
  function CellFrom(es: seq<Entry>, key: Key, column: nat, offset: nat): Option<nat>
  {
    if es == [] then None
    else if es[0].key == key then (if column < |es[0].values| then Some(offset + KEY_FIELDS + column) else None)
    else CellFrom(es[1..], key, column, offset + KEY_FIELDS + |es[0].values|)
  }

  function Cell(es: seq<Entry>, dim: Dim, key: Key): Option<nat>
  {
    CellFrom(es, key, Column(dim), HEADER_FIELDS)
  }

  // Among ordered entries a key occurs once, and its cell is found wherever it stands.
  lemma {:induction false} CellAt(es: seq<Entry>, dim: Dim, key: Key, column: nat, offset: nat, j: nat)
    requires j < |es| && es[j].key == key && column < |es[j].values|
    requires forall i :: 0 <= i < j ==> es[i].key != key
    ensures CellFrom(es, key, column, offset) == Some(offset + |Body(es[..j])| + KEY_FIELDS + column)
  {
    if j > 0 {
      CellAt(es[1..], dim, key, column, offset + KEY_FIELDS + |es[0].values|, j - 1);
      assert es[..j][1..] == es[1..][..j - 1];
    }
  }

  lemma {:induction false} CellNone(es: seq<Entry>, key: Key, column: nat, offset: nat)
    requires forall i :: 0 <= i < |es| ==> es[i].key != key
    ensures CellFrom(es, key, column, offset) == None
  {
    if es != [] {
      CellNone(es[1..], key, column, offset + KEY_FIELDS + |es[0].values|);
    }
  }

  // Every record of a dimension has a primary cell.
  lemma ColumnFits(dim: Dim, values: seq<u64>)
    requires ValuesOk(dim, values)
    ensures Column(dim) < |values|
  {
  }

  // ---------------------------------------------------------------- parsing one entry

  // The bytes of eight u32 limbs.
  function KeyBytes(limbs: seq<u64>): (key: Key)
    requires |limbs| == KEY_FIELDS && forall i :: 0 <= i < |limbs| ==> limbs[i] < U32_BOUND
  {
    seq(32, i requires 0 <= i < 32 => EncodeU32(limbs[i / 4])[i % 4])
  }

  lemma KeyFieldsBytes(limbs: seq<u64>)
    requires |limbs| == KEY_FIELDS && forall i :: 0 <= i < |limbs| ==> limbs[i] < U32_BOUND
    ensures KeyFields(KeyBytes(limbs)) == limbs
  {
    var key := KeyBytes(limbs);
    forall i | 0 <= i < KEY_FIELDS
      ensures KeyFields(key)[i] == limbs[i]
    {
      assert key[4 * i..4 * i + 4] == EncodeU32(limbs[i]) by {
        forall j | 0 <= j < 4
          ensures key[4 * i + j] == EncodeU32(limbs[i])[j]
        {
          assert (4 * i + j) / 4 == i && (4 * i + j) % 4 == j;
        }
      }
      U32RoundTrip(limbs[i]);
    }
  }

  lemma KeyFieldsInjective(a: Key, b: Key)
    requires KeyFields(a) == KeyFields(b)
    ensures a == b
  {
    forall i | 0 <= i < 8
      ensures D.KeyLimbs(a)[i] == D.KeyLimbs(b)[i]
    {
      assert KeyFields(a)[i] == KeyFields(b)[i];
    }
    assert D.KeyLimbs(a) == D.KeyLimbs(b);
    D.KeyLimbsInjective(a, b);
  }

  // What the parser reads at an offset.
  predicate Reads(fields: seq<u64>, offset: nat, dim: Dim, e: Entry)
  {
    && EntryOk(dim, e) && offset + KEY_FIELDS + |e.values| <= |fields|
    && fields[offset..offset + KEY_FIELDS] == KeyFields(e.key)
    && fields[offset + KEY_FIELDS..offset + KEY_FIELDS + |e.values|] == e.values
    && Width(dim, fields[offset + KEY_FIELDS..]) == Some(|e.values|)
  }

  // The width of a record is read from its own first fields, whatever follows.
  lemma WidthLocal(dim: Dim, values: seq<u64>, rest: seq<u64>)
    requires ValuesOk(dim, values)
    ensures Width(dim, values + rest) == Width(dim, values)
  {
  }

  // Where a table decodes, the parser reads its next entry.
  lemma ReadsNext(fields: seq<u64>, dim: Dim, es: seq<Entry>, n: nat)
    requires Decodes(fields, dim, es) && n < |es|
    ensures Reads(fields, HEADER_FIELDS + |Body(es[..n])|, dim, es[n])
  {
    hide KeyFields, EntryOk, Width, Precedes, Body;
    var e, before, rest := es[n], Body(es[..n]), Body(es[n + 1..]);
    var offset := HEADER_FIELDS + |before|;
    BodySplits(es, n);
    SliceReads(fields, before, KeyFields(e.key), e.values, rest);
    EntryValues(dim, e);
    WidthLocal(dim, e.values, rest);
  }

  lemma BodySplits(es: seq<Entry>, n: nat)
    requires n < |es|
    ensures Body(es) == Body(es[..n]) + (KeyFields(es[n].key) + (es[n].values + Body(es[n + 1..])))
  {
    hide KeyFields, Body;
    assert es == es[..n] + es[n..];
    BodyConcat(es[..n], es[n..]);
    BodyHead(es, n);
    Regroup(KeyFields(es[n].key), es[n].values, Body(es[n + 1..]));
  }

  lemma BodyHead(es: seq<Entry>, n: nat)
    requires n < |es|
    ensures Body(es[n..]) == (KeyFields(es[n].key) + es[n].values) + Body(es[n + 1..])
  {
    hide KeyFields;
    assert es[n..][1..] == es[n + 1..];
  }

  lemma Regroup(a: seq<u64>, b: seq<u64>, c: seq<u64>)
    ensures (a + b) + c == a + (b + c)
  {
  }

  lemma SliceReads(fields: seq<u64>, before: seq<u64>, limbs: seq<u64>, values: seq<u64>, rest: seq<u64>)
    requires |fields| >= HEADER_FIELDS && fields[HEADER_FIELDS..] == before + (limbs + (values + rest)) && |limbs| == KEY_FIELDS
    ensures var start := HEADER_FIELDS + |before| + KEY_FIELDS;
            && start + |values| <= |fields| && fields[start - KEY_FIELDS..start] == limbs
            && fields[start..start + |values|] == values && fields[start..] == values + rest
  {
    var start := HEADER_FIELDS + |before| + KEY_FIELDS;
    assert fields[start - KEY_FIELDS..] == fields[HEADER_FIELDS..][|before|..] == limbs + (values + rest);
    assert fields[start..] == fields[start - KEY_FIELDS..][KEY_FIELDS..] == values + rest;
    assert fields[start..start + |values|] == fields[start..][..|values|];
    assert fields[start - KEY_FIELDS..start] == fields[start - KEY_FIELDS..][..KEY_FIELDS];
  }

  lemma EntryValues(dim: Dim, e: Entry)
    requires EntryOk(dim, e)
    ensures ValuesOk(dim, e.values) && Width(dim, e.values) == Some(|e.values|)
  {
  }

  // Two entries read at one offset are the same.
  lemma ReadsOne(fields: seq<u64>, offset: nat, dim: Dim, e: Entry, f: Entry)
    requires Reads(fields, offset, dim, e) && Reads(fields, offset, dim, f)
    ensures e == f
  {
    hide KeyFields, EntryOk, Width;
    KeyFieldsInjective(e.key, f.key);
  }

  // A table decodes to at most one list of entries.
  lemma {:induction false} DecodesPrefix(fields: seq<u64>, dim: Dim, es: seq<Entry>, fs: seq<Entry>, n: nat)
    requires Decodes(fields, dim, es) && Decodes(fields, dim, fs) && n <= |es|
    ensures es[..n] == fs[..n]
  {
    hide Reads, InOrder, Body;
    if n > 0 {
      DecodesPrefix(fields, dim, es, fs, n - 1);
      ReadsNext(fields, dim, es, n - 1);
      ReadsNext(fields, dim, fs, n - 1);
      ReadsOne(fields, HEADER_FIELDS + |Body(es[..n - 1])|, dim, es[n - 1], fs[n - 1]);
      assert es[..n] == es[..n - 1] + [es[n - 1]] && fs[..n] == fs[..n - 1] + [fs[n - 1]];
    }
  }

  lemma DecodesOnce(fields: seq<u64>, dim: Dim, es: seq<Entry>, fs: seq<Entry>)
    requires Decodes(fields, dim, es) && Decodes(fields, dim, fs)
    ensures es == fs
  {
    DecodesPrefix(fields, dim, es, fs, |es|);
    assert es[..|es|] == es && fs[..|fs|] == fs;
  }

  // One entry at an offset: key limbs, sort key, width and values, each checked.
  method ReadEntry(fields: seq<u64>, offset: nat, dim: Dim) returns (r: Option<Entry>)
    ensures r.Some? ==> Reads(fields, offset, dim, r.value)
    ensures forall e :: Reads(fields, offset, dim, e) ==> r == Some(e)
  {
    hide SortKey, Width;
    forall e, f | Reads(fields, offset, dim, e) && Reads(fields, offset, dim, f)
      ensures e == f
    {
      ReadsOne(fields, offset, dim, e, f);
    }
    if offset + KEY_FIELDS > |fields| {
      return None;
    }
    var limbs := fields[offset..offset + KEY_FIELDS];
    if exists i :: 0 <= i < |limbs| && limbs[i] >= U32_BOUND {
      ghost var bad :| 0 <= bad < |limbs| && limbs[bad] >= U32_BOUND;
      assert forall e: Entry :: KeyFields(e.key)[bad] < U32_BOUND;
      return None;
    }
    var key := KeyBytes(limbs);
    KeyFieldsBytes(limbs);
    forall e: Entry | KeyFields(e.key) == limbs
      ensures e.key == key
    {
      KeyFieldsInjective(e.key, key);
    }
    if SortKey(dim, key).None? {
      return None;
    }
    var start := offset + KEY_FIELDS;
    var width := Width(dim, fields[start..]);
    if width.None? || start + width.value > |fields| {
      return None;
    }
    var values := fields[start..start + width.value];
    forall e | Reads(fields, offset, dim, e)
      ensures ValuesOk(dim, e.values) && e.values == fields[start..start + width.value]
    {
    }
    if exists i :: 0 <= i < |values| && values[i] >= U32_BOUND {
      return None;
    }
    assert fields[start..] == values + fields[start + width.value..];
    WidthOfPrefix(dim, values, fields[start + width.value..]);
    r := Some(Entry(key, values));
  }

  lemma WidthOfPrefix(dim: Dim, values: seq<u64>, rest: seq<u64>)
    requires Width(dim, values + rest) == Some(|values|)
    ensures Width(dim, values) == Some(|values|)
  {
  }

  // ---------------------------------------------------------------- the parser

  // The entries parsed so far.
  ghost predicate Parsed(fields: seq<u64>, dim: Dim, done: seq<Entry>, offset: nat)
  {
    && HEADER_FIELDS <= offset <= |fields| && fields[HEADER_FIELDS..offset] == Body(done) && InOrder(dim, done)
  }

  lemma ParsedNext(fields: seq<u64>, dim: Dim, done: seq<Entry>, offset: nat, e: Entry)
    requires Parsed(fields, dim, done, offset) && Reads(fields, offset, dim, e)
    requires done != [] ==> Precedes(dim, done[|done| - 1].key, e.key)
    ensures Parsed(fields, dim, done + [e], offset + KEY_FIELDS + |e.values|)
  {
    hide KeyFields, Width, ValuesOk, SortKey, Lt;
    var end := offset + KEY_FIELDS + |e.values|;
    BodyConcat(done, [e]);
    assert Body([e]) == EntryFields(e) + [];
    assert fields[HEADER_FIELDS..end] == fields[HEADER_FIELDS..offset] + fields[offset..offset + KEY_FIELDS] + fields[offset + KEY_FIELDS..end];
    forall i | 0 <= i < |done|
      ensures Precedes(dim, done[i].key, e.key)
    {
      PrecedesFacts(dim, done[i].key, done[|done| - 1].key, e.key);
    }
  }

  lemma FoundNext(dim: Dim, done: seq<Entry>, key: Key, e: Entry)
    requires InOrder(dim, done + [e])
    ensures Cell(done + [e], dim, key) ==
            if e.key == key then Some(HEADER_FIELDS + |Body(done)| + KEY_FIELDS + Column(dim)) else Cell(done, dim, key)
  {
    hide SortKey, Lt, ValuesOk, KeyFields;
    var all := done + [e];
    if e.key == key {
      forall i | 0 <= i < |done|
        ensures all[i].key != key
      {
        assert Precedes(dim, all[i].key, all[|done|].key);
        PrecedesFacts(dim, all[i].key, all[|done|].key, key);
      }
      assert EntryOk(dim, all[|done|]);
      ColumnFits(dim, e.values);
      CellAt(all, dim, key, Column(dim), HEADER_FIELDS, |done|);
      assert all[..|done|] == done;
    } else {
      CellPush(done, e, key, Column(dim), HEADER_FIELDS);
    }
  }

  lemma {:induction false} CellPush(done: seq<Entry>, e: Entry, key: Key, column: nat, offset: nat)
    requires e.key != key
    ensures CellFrom(done + [e], key, column, offset) == CellFrom(done, key, column, offset)
  {
    if done == [] {
      assert done + [e] == [e];
    } else {
      assert (done + [e])[1..] == done[1..] + [e];
      CellPush(done[1..], e, key, column, offset + KEY_FIELDS + |done[0].values|);
    }
  }

  // primary_index. On a table that decodes, it finds exactly the cell open_entity opens, and none
  // for an absent key; an index is returned only for a table that decodes.
  method PrimaryIndex(fields: seq<u64>, dim: Dim, key: Key, ghost es: seq<Entry>) returns (r: Option<nat>, ghost decoded: seq<Entry>)
    ensures r.Some? ==> Decodes(fields, dim, decoded) && r == Cell(decoded, dim, key)
    ensures Decodes(fields, dim, es) ==> r == Cell(es, dim, key)
  {
    hide Reads, SortKey, Lt, EntryOk, InOrder, Cell, Body, Parsed, Decodes, Precedes;
    decoded := [];
    if Decodes(fields, dim, es) {
      CountOf(fields, dim, es);
    }
    if |fields| <= 2 {
      return None, decoded;
    }
    var entries := fields[2];
    var offset: nat, found := HEADER_FIELDS, None;
    var previous: Option<Key> := None;
    var n := 0;
    NothingParsed(fields, dim, key);
    while n < entries
      invariant 0 <= n <= entries && |decoded| == n && Parsed(fields, dim, decoded, offset) && found == Cell(decoded, dim, key)
      invariant previous == if n == 0 then None else Some(decoded[n - 1].key)
      invariant Decodes(fields, dim, es) ==> es[..n] == decoded
    {
      if Decodes(fields, dim, es) {
        Follows(fields, dim, es, decoded, offset);
      }
      var e := ReadEntry(fields, offset, dim);
      if e.None? {
        return None, decoded;
      }
      if previous.Some? && !Precedes(dim, previous.value, e.value.key) {
        return None, decoded;
      }
      ParsedNext(fields, dim, decoded, offset, e.value);
      InOrderOf(fields, dim, decoded + [e.value], offset + KEY_FIELDS + |e.value.values|);
      OffsetOf(fields, dim, decoded, offset);
      FoundNext(dim, decoded, key, e.value);
      if e.value.key == key {
        found := Some(offset + KEY_FIELDS + Column(dim));
      }
      previous := Some(e.value.key);
      offset := offset + KEY_FIELDS + |e.value.values|;
      assert Decodes(fields, dim, es) ==> es[..n + 1] == es[..n] + [es[n]];
      decoded := decoded + [e.value];
      n := n + 1;
    }
    if Decodes(fields, dim, es) {
      assert es[..n] == es;
      EndsHere(fields, dim, decoded, offset);
    }
    if offset != |fields| {
      return None, decoded;
    }
    WholeTable(fields, dim, decoded, offset);
    r := found;
  }

  lemma NothingParsed(fields: seq<u64>, dim: Dim, key: Key)
    requires |fields| >= HEADER_FIELDS
    ensures Parsed(fields, dim, [], HEADER_FIELDS) && Cell([], dim, key) == None
  {
  }

  lemma CountOf(fields: seq<u64>, dim: Dim, es: seq<Entry>)
    requires Decodes(fields, dim, es)
    ensures |fields| >= HEADER_FIELDS && fields[2] == |es|
  {
  }

  // The entry after those parsed is the next one of any decoding.
  lemma Follows(fields: seq<u64>, dim: Dim, es: seq<Entry>, done: seq<Entry>, offset: nat)
    requires Decodes(fields, dim, es) && Parsed(fields, dim, done, offset) && |done| < |es| && es[..|done|] == done
    ensures Reads(fields, offset, dim, es[|done|])
    ensures done != [] ==> Precedes(dim, done[|done| - 1].key, es[|done|].key)
  {
    hide Reads, Precedes;
    ReadsNext(fields, dim, es, |done|);
    OrderAt(dim, es, |done|);
  }

  lemma EndsHere(fields: seq<u64>, dim: Dim, es: seq<Entry>, offset: nat)
    requires Decodes(fields, dim, es) && Parsed(fields, dim, es, offset)
    ensures offset == |fields|
  {
    assert |fields[HEADER_FIELDS..]| == |fields[HEADER_FIELDS..offset]|;
  }

  lemma WholeTable(fields: seq<u64>, dim: Dim, done: seq<Entry>, offset: nat)
    requires |fields| >= HEADER_FIELDS && fields[2] == |done| && Parsed(fields, dim, done, offset) && offset == |fields|
    ensures Decodes(fields, dim, done)
  {
    assert fields[HEADER_FIELDS..offset] == fields[HEADER_FIELDS..];
  }

  lemma OffsetOf(fields: seq<u64>, dim: Dim, done: seq<Entry>, offset: nat)
    requires Parsed(fields, dim, done, offset)
    ensures offset == HEADER_FIELDS + |Body(done)|
  {
  }

  lemma InOrderOf(fields: seq<u64>, dim: Dim, done: seq<Entry>, offset: nat)
    requires Parsed(fields, dim, done, offset)
    ensures InOrder(dim, done)
  {
  }

  lemma OrderAt(dim: Dim, es: seq<Entry>, n: nat)
    requires InOrder(dim, es) && n < |es|
    ensures n > 0 ==> Precedes(dim, es[n - 1].key, es[n].key)
  {
  }

  // ---------------------------------------------------------------- an entity's primary value

  const MAX_QUERY_FIELDS := 4096

  // r points at the primary value of the record under key, eight limbs of key and the rest of the
  // record around it; or there is no such record and r is none.
  ghost predicate Answers(fields: seq<u64>, dim: Dim, shelf: Shelf, key: Key, r: Option<nat>)
    requires ShelfOk(dim, shelf)
  {
    match RowAt(shelf, key)
    case None => r == None
    case Some(row) =>
      && RowOk(dim, row) && r.Some? && KEY_FIELDS + Column(dim) <= r.value < |fields| && Column(dim) < |RowFields(row)|
      && Reads(fields, r.value - KEY_FIELDS - Column(dim), dim, Entry(key, RowFields(row)))
      && fields[r.value] == RowFields(row)[Column(dim)]
  }

  // Among ordered entries the walk finds the one entry of a present key, and its cell of the
  // printed table holds that entry's primary value.
  lemma PresentCell(dim: Dim, es: seq<Entry>, key: Key, j: nat)
    requires InOrder(dim, es) && Printable(es) && j < |es| && es[j].key == key
    ensures var r := Cell(es, dim, key);
            && r.Some? && KEY_FIELDS + Column(dim) <= r.value < |Serialize(es)| && Column(dim) < |es[j].values|
            && Reads(Serialize(es), r.value - KEY_FIELDS - Column(dim), dim, es[j])
            && Serialize(es)[r.value] == es[j].values[Column(dim)]
  {
    hide SortKey, Lt, Width, KeyFields, Serialize, ValuesOk, Reads, CellFrom, Precedes;
    assert EntryOk(dim, es[j]);
    ColumnFits(dim, es[j].values);
    FirstWith(dim, es, key, j);
    CellAt(es, dim, key, Column(dim), HEADER_FIELDS, j);
    SerializedDecodes(dim, es);
    ReadsNext(Serialize(es), dim, es, j);
    ReadsValue(Serialize(es), HEADER_FIELDS + |Body(es[..j])|, dim, es[j], Column(dim));
  }

  // Ordered keys are distinct.
  lemma FirstWith(dim: Dim, es: seq<Entry>, key: Key, j: nat)
    requires InOrder(dim, es) && j < |es| && es[j].key == key
    ensures forall i :: 0 <= i < j ==> es[i].key != key
  {
    hide SortKey, Lt, EntryOk;
    forall i | 0 <= i < j
      ensures es[i].key != key
    {
      PrecedesFacts(dim, es[i].key, es[j].key, key);
    }
  }

  // The cell the walk finds in a dimension's entries answers for the printed table.
  lemma CellAnswers(dim: Dim, shelf: Shelf, key: Key)
    requires ShelfOk(dim, shelf) && Printable(Entries(dim, shelf))
    ensures Answers(Serialize(Entries(dim, shelf)), dim, shelf, key, Cell(Entries(dim, shelf), dim, key))
  {
    hide Entries, RowAt, RowFields, InOrder, Serialize, Printable, Reads;
    var es := Entries(dim, shelf);
    var j := EntryOf(dim, shelf, key);
    match RowAt(shelf, key) {
      case None =>
        CellNone(es, key, Column(dim), HEADER_FIELDS);
      case Some(row) =>
        EntriesInOrder(dim, shelf);
        PresentCell(dim, es, key, j);
    }
  }

  // So in every dimension of a graph state the cell of a key is its record's primary value.
  lemma StateCells(s: State, dim: Dim, fixed: map<Key, Row>, key: Key)
    requires forall k :: k in fixed ==> RowOk(dim, fixed[k])
    requires forall k :: k in s.axonsOut ==> 8 * |s.axonsOut[k]| + 2 < U64_BOUND
    requires forall k :: k in s.axonsIn ==> 8 * |s.axonsIn[k]| + 2 < U64_BOUND
    ensures var shelf := ShelfOf(s, dim, fixed);
            ShelfOk(dim, shelf) && (Printable(Entries(dim, shelf)) ==>
              Answers(Serialize(Entries(dim, shelf)), dim, shelf, key, Cell(Entries(dim, shelf), dim, key)))
  {
    hide Entries, ShelfOf, Answers, Cell, Serialize, Printable;
    StateShelves(s, dim, fixed);
    if Printable(Entries(dim, ShelfOf(s, dim, fixed))) {
      CellAnswers(dim, ShelfOf(s, dim, fixed), key);
    }
  }

  lemma ReadsValue(fields: seq<u64>, offset: nat, dim: Dim, e: Entry, column: nat)
    requires Reads(fields, offset, dim, e) && column < |e.values|
    ensures offset + KEY_FIELDS + column < |fields| && fields[offset + KEY_FIELDS + column] == e.values[column]
  {
    hide EntryOk, KeyFields, Width;
    assert fields[offset + KEY_FIELDS..offset + KEY_FIELDS + |e.values|][column] == e.values[column];
  }

  // A table the prover discloses: balances, or small enough.
  ghost predicate Disclosed(dim: Dim, es: seq<Entry>)
  {
    dim.Balances? || HEADER_FIELDS + |Body(es)| <= MAX_QUERY_FIELDS
  }

  // open_entity, with open_cell's limit: walk the entries, and open the cell of the key's record.
  method OpenEntity(dim: Dim, shelf: Shelf, key: Key) returns (r: Option<nat>)
    requires ShelfOk(dim, shelf) && Printable(Entries(dim, shelf))
    ensures r == if Disclosed(dim, Entries(dim, shelf)) then Cell(Entries(dim, shelf), dim, key) else None
    ensures Disclosed(dim, Entries(dim, shelf)) ==> Answers(Serialize(Entries(dim, shelf)), dim, shelf, key, r)
  {
    hide Entries, RowFields, Answers, Serialize, RowAt;
    CellAnswers(dim, shelf, key);
    var es := ListEntries(dim, shelf);
    var offset: nat, i := HEADER_FIELDS, 0;
    while i < |es|
      invariant 0 <= i <= |es| && Cell(es, dim, key) == CellFrom(es[i..], key, Column(dim), offset)
    {
      assert es[i..][1..] == es[i + 1..];
      if es[i].key == key {
        var count := CountFields(es);
        var small := dim.Balances? || count <= MAX_QUERY_FIELDS;
        return if small && Column(dim) < |es[i].values| then Some(offset + KEY_FIELDS + Column(dim)) else None;
      }
      offset := offset + KEY_FIELDS + |es[i].values|;
      i := i + 1;
    }
    r := None;
  }

  method CountFields(es: seq<Entry>) returns (count: nat)
    ensures count == HEADER_FIELDS + |Body(es)|
  {
    count := HEADER_FIELDS;
    var i := 0;
    while i < |es|
      invariant 0 <= i <= |es| && count + |Body(es[i..])| == HEADER_FIELDS + |Body(es)|
    {
      assert es[i..][1..] == es[i + 1..];
      count := count + KEY_FIELDS + |es[i].values|;
      i := i + 1;
    }
  }

  // verify_entity, past the authentication of the table: the disclosed index must be the cell the
  // parser finds. On the printed table of a dimension, that is the one index the prover opens.
  method VerifyEntity(fields: seq<u64>, dim: Dim, key: Key, index: nat, ghost shelf: Shelf) returns (ok: bool)
    requires ShelfOk(dim, shelf) && Printable(Entries(dim, shelf))
    ensures ok ==> exists decoded :: Decodes(fields, dim, decoded) && Cell(decoded, dim, key) == Some(index)
    ensures fields == Serialize(Entries(dim, shelf)) ==> (ok <==> Cell(Entries(dim, shelf), dim, key) == Some(index))
    ensures fields == Serialize(Entries(dim, shelf)) && ok ==> RowAt(shelf, key).Some? && Answers(fields, dim, shelf, key, Some(index))
  {
    hide Entries, RowFields, Serialize, Decodes, Reads, Cell, EntryOk;
    ghost var es := Entries(dim, shelf);
    EntriesInOrder(dim, shelf);
    SerializedDecodes(dim, es);
    CellAnswers(dim, shelf, key);
    var r, decoded := PrimaryIndex(fields, dim, key, es);
    ok := r == Some(index);
  }

  // ---------------------------------------------------------------- public balances

  // A balance entry takes ten fields, so prove_public_balance's arithmetic finds the walk's cell.
  lemma BalancePosition(balances: map<Key, Row>, key: Key, position: nat)
    requires ShelfOk(Balances, Keyed(balances)) && position < |Entries(Balances, Keyed(balances))|
    requires Entries(Balances, Keyed(balances))[position].key == key
    ensures Cell(Entries(Balances, Keyed(balances)), Balances, key) == Some(HEADER_FIELDS + position * (KEY_FIELDS + 2) + KEY_FIELDS)
  {
    hide Entries, RowFields, SortKey, Lt, KeyFields;
    var es := Entries(Balances, Keyed(balances));
    EntriesInOrder(Balances, Keyed(balances));
    FirstWith(Balances, es, key, position);
    assert EntryOk(Balances, es[position]);
    CellAt(es, Balances, key, 0, HEADER_FIELDS, position);
    BalanceBody(es, position);
  }

  lemma {:induction false} BalanceBody(es: seq<Entry>, n: nat)
    requires n <= |es| && forall i :: 0 <= i < |es| ==> EntryOk(Balances, es[i])
    ensures |Body(es[..n])| == 10 * n
  {
    hide KeyFields, SortKey;
    if n > 0 {
      BalanceBody(es, n - 1);
      assert es[..n] == es[..n - 1] + [es[n - 1]];
      BodyConcat(es[..n - 1], [es[n - 1]]);
      assert Body([es[n - 1]]) == EntryFields(es[n - 1]) + [];
      assert EntryOk(Balances, es[n - 1]);
    }
  }

  // verify_public_balance, past the authentication: both limbs of the balance under the key.
  method PublicBalance(fields: seq<u64>, key: Key, index: nat, ghost balances: map<Key, Row>) returns (b: Option<u64>)
    requires ShelfOk(Balances, Keyed(balances)) && Printable(Entries(Balances, Keyed(balances)))
    ensures fields == Serialize(Entries(Balances, Keyed(balances))) ==>
      && (b.Some? <==> Cell(Entries(Balances, Keyed(balances)), Balances, key) == Some(index))
      && (b.Some? ==> key in balances && balances[key] == BalanceRow(b.value))
  {
    hide Entries, Serialize, Cell, Decodes, Answers, RowFields, Printable;
    var ok := VerifyEntity(fields, Balances, key, index, Keyed(balances));
    if !ok {
      return None;
    }
    if fields == Serialize(Entries(Balances, Keyed(balances))) {
      BalanceLimbs(fields, key, index, balances);
    }
    if index + 1 >= |fields| || fields[index] >= U32_BOUND || fields[index + 1] >= U32_BOUND {
      return None;
    }
    b := Some(fields[index] + U32_BOUND * fields[index + 1]);
  }

  lemma BalanceLimbs(fields: seq<u64>, key: Key, index: nat, balances: map<Key, Row>)
    requires ShelfOk(Balances, Keyed(balances)) && key in balances && Answers(fields, Balances, Keyed(balances), key, Some(index))
    ensures index + 1 < |fields| && balances[key] == BalanceRow(fields[index] + U32_BOUND * fields[index + 1])
    ensures fields[index] < U32_BOUND && fields[index + 1] < U32_BOUND
  {
    hide EntryOk, KeyFields, Width;
    var row := balances[key];
    var b := row.b;
    assert Scalars([b]) == [b % U32_BOUND, b / U32_BOUND] + Scalars([]);
    ReadsValue(fields, index - KEY_FIELDS, Balances, Entry(key, RowFields(row)), 1);
  }
}
