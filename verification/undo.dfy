// The bounded undo log: the encoded starting value of every address a preparation touches.
module Undos {
  import opened Wrappers
  import opened Bytes
  import opened Integers
  import opened Records
  import opened Axons
  import opened Sorting
  import opened Graph
  import opened Pruning
  import opened Blocks
  import opened Addresses
  import opened Adjacency

  const MAX_KEYS := 65536
  const MAX_BYTES := 8 * 1024 * 1024
  const MAX_LIST := (MAX_BYTES - 8) / 32

  datatype Error =
    | Arguments
    | CheckpointProof
    | DoubleSpend
    | Overflow(field: string)
    | Limit(what: string)
    | SignalExists

  // The metadata record: version, height, root, checkpoint, diameter bound, pruning policy.
  function Metadata(h: Hashes, w: World): seq<byte>
  {
    EncodeU32(1) + EncodeU64(w.state.height) + h.root(w.state)
    + EncodeU64(w.checkpoint.height) + w.checkpoint.root
    + (match w.state.fixed.diameter case None => [0] case Some(d) => [1] + EncodeU64(d))
    + EncodeU64(w.config.maxBytes) + [w.config.rankFloorPct] + EncodeU64(w.config.halfLifeEpochs)
  }

  // Every field is read back from its place in the record.
  lemma MetadataFields(h: Hashes, w: World)
    ensures var m, tail := Metadata(h, w), if w.state.fixed.diameter.None? then 85 else 93;
            && |m| == tail + 17 && m[..4] == [1, 0, 0, 0]
            && DecodeU64(m[4..12]) == w.state.height && m[12..44] == h.root(w.state)
            && DecodeU64(m[44..52]) == w.checkpoint.height && m[52..84] == w.checkpoint.root
            && (match w.state.fixed.diameter case None => m[84] == 0 case Some(d) => m[84] == 1 && DecodeU64(m[85..93]) == d)
            && DecodeU64(m[tail..tail + 8]) == w.config.maxBytes && m[tail + 8] == w.config.rankFloorPct
            && DecodeU64(m[tail + 9..]) == w.config.halfLifeEpochs
  {
    hide EncodeU64, EncodeU32;
    U64RoundTrip(w.state.height);
    U64RoundTrip(w.checkpoint.height);
    U64RoundTrip(w.config.maxBytes);
    U64RoundTrip(w.config.halfLifeEpochs);
    VersionOne();
    var d := match w.state.fixed.diameter case None => [0] case Some(d) => [1] + EncodeU64(d);
    Layout(EncodeU32(1), EncodeU64(w.state.height), h.root(w.state), EncodeU64(w.checkpoint.height), w.checkpoint.root, d,
           EncodeU64(w.config.maxBytes), w.config.rankFloorPct, EncodeU64(w.config.halfLifeEpochs));
    if w.state.fixed.diameter.Some? {
      U64RoundTrip(w.state.fixed.diameter.value);
      assert Metadata(h, w)[85..93] == d[1..];
    }
  }

  // Where the parts of the record start.
  lemma Layout(v: seq<byte>, c: seq<byte>, r: seq<byte>, k: seq<byte>, q: seq<byte>, d: seq<byte>, x: seq<byte>, p: byte, l: seq<byte>)
    requires |v| == 4 && |c| == |k| == |x| == |l| == 8 && |r| == |q| == 32 && |d| > 0
    ensures var m, tail := v + c + r + k + q + d + x + [p] + l, 84 + |d|;
            && |m| == tail + 17 && m[..4] == v && m[4..12] == c && m[12..44] == r && m[44..52] == k && m[52..84] == q
            && m[84..tail] == d && m[84] == d[0] && m[85..tail] == d[1..]
            && m[tail..tail + 8] == x && m[tail + 8] == p && m[tail + 9..] == l
  {
    var front := v + c + r + k + q;
    assert front[..4] == v && front[4..12] == c && front[12..44] == r && front[44..52] == k && front[52..84] == q;
    var m := front + d + x + [p] + l;
    assert m[..84] == front;
    assert m[84..84 + |d|] == d;
  }

  lemma VersionOne()
    ensures EncodeU32(1) == [1, 0, 0, 0]
  {
  }

  // Two graphs with one metadata record agree in all it is a record of.
  lemma MetadataBinds(h: Hashes, v: World, w: World)
    requires Metadata(h, v) == Metadata(h, w)
    ensures v.state.height == w.state.height && h.root(v.state) == h.root(w.state)
    ensures v.checkpoint.height == w.checkpoint.height && v.checkpoint.root == w.checkpoint.root
    ensures v.state.fixed.diameter == w.state.fixed.diameter && v.config == w.config
  {
    hide Metadata, DecodeU64;
    MetadataFields(h, v);
    MetadataFields(h, w);
  }

  // The encoded record at an address.
  function Read(h: Hashes, w: World, a: Address): Option<seq<byte>>
  {
    if a == Meta then Some(Metadata(h, w))
    else match Get(w, a)
         case None => None
         case Some(v) => Some(Encode(v))
  }

  // A list too long to snapshot.
  predicate TooLong(w: World, a: Address)
  {
    var v := Get(w, a);
    (a.Out? || a.In?) && v.Some? && |v.value.l| > MAX_LIST
  }

  // The bound on lists is a bound on bytes: no other record comes near it.
  lemma TooLongExact(h: Hashes, w: World, a: Address)
    requires !a.Other?
    ensures TooLong(w, a) <==> Read(h, w, a).Some? && |Read(h, w, a).value| > MAX_BYTES
  {
    var v := Get(w, a);
    if a != Meta && v.Some? {
      RecordSize(v.value);
    }
  }

  lemma RecordSize(v: Value)
    ensures v.ListV? ==> |Encode(v)| == 8 + 32 * |v.l|
    ensures !v.ListV? && !v.OtherV? ==> |Encode(v)| <= 144
  {
    hide EncodeU64, EncodeU32, Integers64, Flatten;
  }

  // A record is read just when its encoding fits the byte bound.
  method BoundedRead(bbg: Bbg, a: Address) returns (r: Result<Option<seq<byte>>, Error>)
    ensures r.Err? <==> !a.Other? && Read(bbg.h, bbg.World(), a).Some? && |Read(bbg.h, bbg.World(), a).value| > MAX_BYTES
    ensures r.Ok? ==> r.value == Read(bbg.h, bbg.World(), a)
    ensures r.Err? ==> r.error.Limit?
  {
    hide Metadata, Read;
    var w := bbg.World();
    if !a.Other? {
      TooLongExact(bbg.h, w, a);
    }
    if TooLong(w, a) {
      return Err(Limit("adjacency bytes"));
    }
    return Ok(Read(bbg.h, w, a));
  }

  function Size(a: Address, value: Option<seq<byte>>): nat
  {
    |KeyOf(a)| + (if value.Some? then |value.value| else 0)
  }

  // ---------------------------------------------------------------- the bounds of a log

  // Keys and records together, over a set of addresses.
  ghost function Total(h: Hashes, w: World, footprint: set<Address>): nat
  {
    if footprint == {} then 0
    else
      var a :| a in footprint;
      Size(a, Read(h, w, a)) + Total(h, w, footprint - {a})
  }

  // The total does not depend on the order the addresses are visited in.
  lemma {:induction false} TotalAt(h: Hashes, w: World, footprint: set<Address>, a: Address)
    requires a in footprint
    ensures Total(h, w, footprint) == Size(a, Read(h, w, a)) + Total(h, w, footprint - {a})
    decreases |footprint|
  {
    hide Read, Size;
    var b :| b in footprint && Total(h, w, footprint) == Size(b, Read(h, w, b)) + Total(h, w, footprint - {b});
    if b != a {
      TotalAt(h, w, footprint - {b}, a);
      TotalAt(h, w, footprint - {a}, b);
      assert footprint - {b} - {a} == footprint - {a} - {b};
    }
  }

  lemma {:induction false} TotalMonotone(h: Hashes, w: World, less: set<Address>, more: set<Address>)
    requires less <= more
    ensures Total(h, w, less) <= Total(h, w, more)
    decreases |less|
  {
    hide Read, Size;
    if a :| a in less {
      TotalAt(h, w, less, a);
      TotalAt(h, w, more, a);
      TotalMonotone(h, w, less - {a}, more - {a});
    }
  }

  // What a log of the starting values of these addresses may weigh.
  ghost predicate WithinLimits(h: Hashes, start: World, footprint: set<Address>)
  {
    |footprint| <= MAX_KEYS && Total(h, start, footprint) <= MAX_BYTES
  }

  lemma WithinMonotone(h: Hashes, start: World, less: set<Address>, more: set<Address>)
    requires less <= more && WithinLimits(h, start, more)
    ensures WithinLimits(h, start, less)
  {
    SubsetCount(less, more);
    TotalMonotone(h, start, less, more);
  }

  // The log holds the starting value of each of its addresses, and nothing else has changed since.
  ghost predicate Logged(h: Hashes, start: World, cur: World, values: map<Address, Option<seq<byte>>>)
  {
    && SameOutside(start, cur, values.Keys)
    && forall a :: a in values ==> values[a] == Read(h, start, a) && !TooLong(start, a) && !a.Other?
  }

  class Undo {
    var values: map<Address, Option<seq<byte>>>
    var bytes: nat
    const height: u64
    const checkpointRoot: Key
    const checkpointHeight: u64

    constructor (bbg: Bbg)
      ensures values == map[] && bytes == 0
      ensures height == bbg.state.height && checkpointRoot == bbg.checkpoint.root && checkpointHeight == bbg.checkpoint.height
    {
      values, bytes := map[], 0;
      height, checkpointRoot, checkpointHeight := bbg.state.height, bbg.checkpoint.root, bbg.checkpoint.height;
    }

    // The count of bytes is exact. An address that breaks a limit leaves it spoiled.
    ghost predicate Sized(h: Hashes, start: World)
      reads this
    {
      WithinLimits(h, start, values.Keys) && bytes == Total(h, start, values.Keys)
    }

    // Snapshot an address the first time it is named. The snapshot is the starting value,
    // whatever has been mutated in the meantime. It is refused exactly if the log with it would
    // hold too many keys or bytes.
    method Capture(bbg: Bbg, a: Address, ghost start: World) returns (r: Result<(), Error>)
      requires !a.Other? && Logged(bbg.h, start, bbg.World(), values) && Sized(bbg.h, start)
      requires a == Meta ==> a in values || bbg.World() == start
      modifies this
      ensures Logged(bbg.h, start, bbg.World(), values)
      ensures r.Ok? <==> WithinLimits(bbg.h, start, old(values.Keys) + {a})
      ensures r.Ok? ==> Sized(bbg.h, start) && values.Keys == old(values.Keys) + {a}
      ensures r.Err? ==> r.error.Limit? && values == old(values)
      // A logged address is left as it was; a new one goes in with its starting value.
      ensures a in old(values) ==> r.Ok? && values == old(values) && bytes == old(bytes)
      ensures a !in old(values) ==>
        var record := Read(bbg.h, start, a);
        var total := old(bytes) + |KeyOf(a)| + (match record case None => 0 case Some(b) => |b|);
        && (r.Ok? <==> |old(values)| < 65_536 && total <= 8_388_608)
        && (r.Ok? ==> values == old(values)[a := record] && bytes == total)
    {
      hide KeyOf, Logged, Metadata, Get, Read, TooLong, Total;
      ghost var h, cur, before := bbg.h, bbg.World(), values.Keys;
      if a in values {
        assert before + {a} == before;
        return Ok(());
      }
      assert |before + {a}| == |before| + 1 && |before| == |values|;
      if |values| == MAX_KEYS {
        return Err(Limit("undo keys"));
      }
      FirstRead(h, start, cur, values, a);
      var value := BoundedRead(bbg, a);
      if value.Err? {
        return Err(value.error);
      }
      bytes := bytes + Size(a, value.value);
      if bytes > MAX_BYTES {
        return Err(Limit("undo bytes"));
      }
      LogOne(h, start, cur, values, a);
      values := values[a := value.value];
      return Ok(());
    }

    // Put every captured value back, then the scalars.
    method Restore(bbg: Bbg, ghost start: World)
      requires Logged(bbg.h, start, bbg.World(), values) && ListsOk(start.state.axonsOut) && ListsOk(start.state.axonsIn)
      requires height == start.state.height && checkpointRoot == start.checkpoint.root && checkpointHeight == start.checkpoint.height
      requires bbg.checkpoint.proof == start.checkpoint.proof
      modifies bbg
      ensures bbg.World() == start
    {
      hide Get;
      var todo := values.Keys;
      while todo != {}
        invariant todo <= values.Keys && values == old(values)
        invariant SameOutside(start, bbg.World(), todo)
        invariant bbg.checkpoint.proof == start.checkpoint.proof
        decreases todo
      {
        var a :| a in todo;
        ghost var before := bbg.World();
        RestoreOne(bbg, a, values[a], start);
        todo := todo - {a};
        RestoredOutside(start, before, bbg.World(), todo, a);
      }
      ghost var w := bbg.World();
      bbg.state := bbg.state.(height := height);
      bbg.checkpoint := bbg.checkpoint.(root := checkpointRoot, height := checkpointHeight);
      ScalarsAside(start, w, bbg.World());
      WorldIsItsReads(start, bbg.World());
    }
  }

  lemma SameRead(h: Hashes, start: World, cur: World, footprint: set<Address>, a: Address)
    requires SameOutside(start, cur, footprint) && a !in footprint && (a == Meta ==> cur == start)
    ensures Read(h, cur, a) == Read(h, start, a) && TooLong(cur, a) == TooLong(start, a)
  {
  }

  // What an address not logged yet would add to the log.
  lemma FirstRead(h: Hashes, start: World, cur: World, values: map<Address, Option<seq<byte>>>, a: Address)
    requires Logged(h, start, cur, values) && a !in values && !a.Other? && (a == Meta ==> cur == start)
    ensures Read(h, cur, a) == Read(h, start, a)
    ensures Total(h, start, values.Keys + {a}) == Total(h, start, values.Keys) + Size(a, Read(h, cur, a))
    ensures TooLong(cur, a) <==> Read(h, cur, a).Some? && |Read(h, cur, a).value| > MAX_BYTES
  {
    hide Total;
    SameRead(h, start, cur, values.Keys, a);
    TotalAt(h, start, values.Keys + {a}, a);
    assert values.Keys + {a} - {a} == values.Keys;
    TooLongExact(h, cur, a);
  }

  // The first capture of an address logs its starting value.
  lemma LogOne(h: Hashes, start: World, cur: World, values: map<Address, Option<seq<byte>>>, a: Address)
    requires Logged(h, start, cur, values) && a !in values && !a.Other? && !TooLong(cur, a) && (a == Meta ==> cur == start)
    ensures var more := values[a := Read(h, cur, a)];
            Logged(h, start, cur, more) && more.Keys == values.Keys + {a} && |more| == |values| + 1
  {
    hide Get, Metadata;
    var more := values[a := Read(h, cur, a)];
    assert more.Keys == values.Keys + {a};
    SameRead(h, start, cur, values.Keys, a);
    forall x | x in more
      ensures more[x] == Read(h, start, x) && !TooLong(start, x) && !x.Other?
    {
    }
  }

  // Writing height and checkpoint changes no record but the metadata.
  lemma ScalarsAside(start: World, w: World, v: World)
    requires SameOutside(start, w, {})
    requires v == w.(state := w.state.(height := start.state.height), checkpoint := start.checkpoint)
    ensures SameOutside(start, v, {})
  {
    hide SameOutside;
    HeightFrame(w, start.state.height, {});
    var u := w.(state := w.state.(height := start.state.height));
    CheckpointFrame(u, start.checkpoint, {});
    SameOutsideTrans(start, w, u, {});
    SameOutsideTrans(start, u, v, {});
  }

  lemma RestoredOutside(start: World, before: World, after: World, todo: set<Address>, a: Address)
    requires SameOutside(start, before, todo + {a}) && SameOutside(before, after, {a}) && Get(after, a) == Get(start, a)
    ensures SameOutside(start, after, todo)
  {
    forall x | x !in todo
      ensures Get(after, x) == Get(start, x)
    {
    }
  }

  // Decode one snapshot and write it back.
  method RestoreOne(bbg: Bbg, a: Address, value: Option<seq<byte>>, ghost start: World)
    requires !a.Other? && !TooLong(start, a) && value == Read(bbg.h, start, a)
    requires ListsOk(start.state.axonsOut) && ListsOk(start.state.axonsIn)
    modifies bbg
    ensures SameOutside(old(bbg.World()), bbg.World(), {a}) && Get(bbg.World(), a) == Get(start, a)
    ensures bbg.checkpoint == old(bbg.checkpoint)
  {
    if a == Meta {
      return;
    }
    GetFits(start, a);
    var v: Option<Value> := None;
    if value.Some? {
      var decoded := Decode(a, value.value, Get(start, a).value);
      v := Some(decoded);
    }
    PutFrame(bbg.World(), a, v);
    WriteBack(bbg, a, v);
  }

  // The writes of restore, domain by domain.
  method WriteBack(bbg: Bbg, a: Address, v: Option<Value>)
    requires !a.Other? && a != Meta && (v.Some? ==> Fits(a, v.value))
    modifies bbg
    ensures bbg.World() == Put(old(bbg.World()), a, v)
  {
    match a {
      case Particle(k) =>
        bbg.state := bbg.state.(particles := SetOrRemove(bbg.state.particles, k, if v.None? then None else Some(v.value.p)));
      case Out(k) =>
        bbg.state := bbg.state.(axonsOut := SetList(bbg.state.axonsOut, k, if v.None? then None else Some(v.value.l)));
      case In(k) =>
        bbg.state := bbg.state.(axonsIn := SetList(bbg.state.axonsIn, k, if v.None? then None else Some(v.value.l)));
      case Neuron(k) =>
        bbg.state := bbg.state.(neurons := SetOrRemove(bbg.state.neurons, k, if v.None? then None else Some(v.value.n)));
      case Time(t) =>
        bbg.state := bbg.state.(time := SetOrRemove(bbg.state.time, t, if v.None? then None else Some(v.value.root)));
      case SignalAt(k) =>
        bbg.state := bbg.state.(signals := SetOrRemove(bbg.state.signals, k, if v.None? then None else Some(v.value.s)));
      case Commitment(k) =>
        bbg.state := bbg.state.(commitments := SetOrRemove(bbg.state.commitments, k, if v.None? then None else Some(v.value.f)));
      case Balance(k) =>
        bbg.state := bbg.state.(balances := SetOrRemove(bbg.state.balances, k, if v.None? then None else Some(v.value.b)));
      case Intent(k) =>
        bbg.state := bbg.state.(intents := SetOrRemove(bbg.state.intents, k, if v.None? then None else Some(v.value.i)));
      case Edge(k) =>
        bbg.state := bbg.state.(edges := SetOrRemove(bbg.state.edges, k, if v.None? then None else Some((v.value.from, v.value.to))));
      case Nullifier(k) =>
        bbg.state := bbg.state.(nullifiers := if v.None? then bbg.state.nullifiers - {k} else bbg.state.nullifiers + {k});
      case Touch(k) =>
        bbg.touched := SetOrRemove(bbg.touched, k, if v.None? then None else Some(v.value.epoch));
    }
  }
}
