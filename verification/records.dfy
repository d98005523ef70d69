// The records of the graph state, their persisted addresses and their byte encodings.
module Records {
  import opened Wrappers
  import opened Bytes
  import opened Integers

  // The Goldilocks modulus; field elements are canonical.
  const FIELD: u64 := 0xFFFF_FFFF_0000_0001
  type felt = x: int | 0 <= x < FIELD

  datatype ParticleRecord = ParticleRecord(energy: u64, piStar: u64, weight: u64, sYes: u64, sNo: u64, metaScore: u64)
  datatype NeuronRecord = NeuronRecord(focus: u64, karma: u64, stake: u64, nonce: u64)
  datatype SignalRecord = SignalRecord(neuron: Key, network: Key, linkCount: u32, blockHeight: u64, proofHash: Key, step: u64)
  type Signature = s: seq<byte> | |s| == 64 witness seq(64, _ => 0)
  datatype IntentRecord = IntentRecord(neuron: Key, h0: u64, scopeHash: Key, signature: Signature)

  // The dimensions a transition never writes.
  datatype FixedDomain = Locations | Coins | Cards | Files

  // The address of a persisted record; Meta is the metadata record.
  datatype Address =
    | Meta
    | Other(d: FixedDomain, k: Key)
    | Particle(k: Key) | Out(k: Key) | In(k: Key) | Neuron(k: Key)
    | Time(h: u64)
    | SignalAt(k: Key) | Commitment(k: Key) | Nullifier(k: Key) | Balance(k: Key)
    | Intent(k: Key) | Edge(k: Key) | Touch(k: Key)

  datatype Value =
    | ParticleV(p: ParticleRecord)
    | ListV(l: seq<Key>)
    | NeuronV(n: NeuronRecord)
    | TimeV(root: Key)
    | SignalV(s: SignalRecord)
    | CommitmentV(f: felt)
    | NullifierV
    | BalanceV(b: u64)
    | IntentV(i: IntentRecord)
    | EdgeV(from: Key, to: Key)
    | TouchV(epoch: u64)
    | OtherV(bytes: seq<byte>)

  function Domain(a: Address): byte
  {
    match a
    case Meta => 0
    case Particle(_) => 1
    case Out(_) => 2
    case In(_) => 3
    case Neuron(_) => 4
    case Other(d, _) => (match d case Locations => 5 case Coins => 6 case Cards => 7 case Files => 8)
    case Time(_) => 9
    case SignalAt(_) => 10
    case Commitment(_) => 11
    case Nullifier(_) => 12
    case Balance(_) => 13
    case Intent(_) => 14
    case Edge(_) => 15
    case Touch(_) => 16
  }

  function Entity(a: Address): seq<byte>
  {
    match a
    case Meta => []
    case Time(h) => BigEndian(h)
    case _ => a.k
  }

  // The persisted key of an address: a domain byte, then the entity.
  function KeyOf(a: Address): (key: seq<byte>)
    ensures 1 <= |key| <= 33
  {
    [Domain(a)] + Entity(a)
  }

  lemma KeyOfInjective(a: Address, b: Address)
    requires KeyOf(a) == KeyOf(b)
    ensures a == b
  {
    assert Domain(a) == KeyOf(a)[0] && Domain(b) == KeyOf(b)[0];
    assert Entity(a) == KeyOf(a)[1..] && Entity(b) == KeyOf(b)[1..];
    if a.Time? {
      BigEndianInjective(a.h, b.h);
    }
  }

  // What kind of value lives at an address.
  predicate Fits(a: Address, v: Value)
  {
    match a
    case Meta => false
    case Particle(_) => v.ParticleV?
    case Out(_) => v.ListV?
    case In(_) => v.ListV?
    case Neuron(_) => v.NeuronV?
    case Time(_) => v.TimeV?
    case SignalAt(_) => v.SignalV?
    case Commitment(_) => v.CommitmentV?
    case Nullifier(_) => v.NullifierV?
    case Balance(_) => v.BalanceV?
    case Intent(_) => v.IntentV?
    case Edge(_) => v.EdgeV?
    case Touch(_) => v.TouchV?
    case Other(_, _) => v.OtherV?
  }

  // Little-endian u64 fields, one after another.
  function Integers64(vs: seq<u64>): (bs: seq<byte>)
    ensures |bs| == 8 * |vs|
  {
    if vs == [] then [] else EncodeU64(vs[0]) + Integers64(vs[1..])
  }

  function Flatten(l: seq<Key>): (bs: seq<byte>)
    ensures |bs| == 32 * |l|
  {
    if l == [] then [] else l[0] + Flatten(l[1..])
  }

  // A list whose count the u64 cast keeps.
  predicate Countable(v: Value)
  {
    v.ListV? ==> |v.l| < U64_BOUND
  }

  function Encode(v: Value): seq<byte>
  {
    match v
    case ParticleV(p) => Integers64([p.energy, p.piStar, p.weight, p.sYes, p.sNo, p.metaScore])
    case ListV(l) => EncodeU64(|l| % U64_BOUND) + Flatten(l)
    case NeuronV(n) => Integers64([n.focus, n.karma, n.stake, n.nonce])
    case TimeV(root) => root
    case SignalV(s) => s.neuron + s.network + EncodeU32(s.linkCount) + EncodeU64(s.blockHeight) + s.proofHash + EncodeU64(s.step)
    case CommitmentV(f) => EncodeU64(f)
    case NullifierV => []
    case BalanceV(b) => EncodeU64(b)
    case IntentV(i) => i.neuron + EncodeU64(i.h0) + i.scopeHash + i.signature
    case EdgeV(from, to) => from + to
    case TouchV(epoch) => EncodeU64(epoch)
    case OtherV(bytes) => bytes
  }

  // A cursor over a snapshot: every read takes bytes off the front.
  class Reader {
    var rest: seq<byte>

    constructor (bytes: seq<byte>)
      ensures rest == bytes
    {
      rest := bytes;
    }

    method Array(n: nat, ghost tail: seq<byte>) returns (bs: seq<byte>)
      requires |rest| == n + |tail| && rest[n..] == tail
      modifies this
      ensures bs == old(rest)[..n] && rest == tail
    {
      bs := rest[..n];
      rest := rest[n..];
    }

    method ReadKey(ghost k: Key, ghost tail: seq<byte>) returns (r: Key)
      requires rest == k + tail
      modifies this
      ensures r == k && rest == tail
    {
      r := Array(32, tail);
    }

    method ReadU64(ghost v: u64, ghost tail: seq<byte>) returns (r: u64)
      requires rest == EncodeU64(v) + tail
      modifies this
      ensures r == v && rest == tail
    {
      var bs := Array(8, tail);
      U64RoundTrip(v);
      r := DecodeU64(bs);
    }

    method ReadU32(ghost v: u32, ghost tail: seq<byte>) returns (r: u32)
      requires rest == EncodeU32(v) + tail
      modifies this
      ensures r == v && rest == tail
    {
      var bs := Array(4, tail);
      U32RoundTrip(v);
      r := DecodeU32(bs);
    }

    // n little-endian integers.
    method ReadIntegers(ghost vs: seq<u64>, n: nat) returns (r: seq<u64>)
      requires |vs| == n && rest == Integers64(vs)
      modifies this
      ensures r == vs
    {
      r := [];
      var i := 0;
      while i < n
        invariant 0 <= i <= n && r == vs[..i] && rest == Integers64(vs[i..])
      {
        assert vs[i..][1..] == vs[i + 1..];
        var v := ReadU64(vs[i], Integers64(vs[i + 1..]));
        r := r + [v];
        i := i + 1;
      }
    }

    // A counted list of keys.
    method ReadList(ghost l: seq<Key>) returns (r: seq<Key>)
      requires |l| < U64_BOUND && rest == EncodeU64(|l|) + Flatten(l)
      modifies this
      ensures r == l
    {
      var n := ReadU64(|l|, Flatten(l));
      r := [];
      var i := 0;
      while i < n
        invariant 0 <= i <= n && r == l[..i] && rest == Flatten(l[i..])
      {
        assert l[i..][1..] == l[i + 1..];
        var k := ReadKey(l[i], Flatten(l[i + 1..]));
        r := r + [k];
        i := i + 1;
      }
    }

    method LastKey(ghost k: Key) returns (r: Key)
      requires rest == k
      modifies this
      ensures r == k
    {
      assert rest == k + [];
      r := ReadKey(k, []);
    }

    method LastU64(ghost v: u64) returns (r: u64)
      requires rest == EncodeU64(v)
      modifies this
      ensures r == v
    {
      assert rest == EncodeU64(v) + [];
      r := ReadU64(v, []);
    }

    method ReadParticle(ghost p: ParticleRecord) returns (r: ParticleRecord)
      requires rest == Encode(ParticleV(p))
      modifies this
      ensures r == p
    {
      hide Integers64;
      var f := ReadIntegers([p.energy, p.piStar, p.weight, p.sYes, p.sNo, p.metaScore], 6);
      r := ParticleRecord(f[0], f[1], f[2], f[3], f[4], f[5]);
    }

    method ReadNeuron(ghost n: NeuronRecord) returns (r: NeuronRecord)
      requires rest == Encode(NeuronV(n))
      modifies this
      ensures r == n
    {
      hide Integers64;
      var f := ReadIntegers([n.focus, n.karma, n.stake, n.nonce], 4);
      r := NeuronRecord(f[0], f[1], f[2], f[3]);
    }

    method ReadEdge(ghost from: Key, ghost to: Key) returns (r: Value)
      requires rest == from + to
      modifies this
      ensures r == EdgeV(from, to)
    {
      assert rest == from + (to + []);
      var source := ReadKey(from, to + []);
      var target := ReadKey(to, []);
      r := EdgeV(source, target);
    }

    method ReadSignal(ghost s: SignalRecord) returns (r: SignalRecord)
      requires rest == Encode(SignalV(s))
      modifies this
      ensures r == s
    {
      ghost var t5 := EncodeU64(s.step);
      ghost var t4 := s.proofHash + t5;
      ghost var t3 := EncodeU64(s.blockHeight) + t4;
      ghost var t2 := EncodeU32(s.linkCount) + t3;
      ghost var t1 := s.network + t2;
      assert rest == s.neuron + t1;
      var neuron := ReadKey(s.neuron, t1);
      var network := ReadKey(s.network, t2);
      var linkCount := ReadU32(s.linkCount, t3);
      var blockHeight := ReadU64(s.blockHeight, t4);
      var proofHash := ReadKey(s.proofHash, t5);
      assert t5 == t5 + [];
      var step := ReadU64(s.step, []);
      r := SignalRecord(neuron, network, linkCount, blockHeight, proofHash, step);
    }

    method ReadIntent(ghost i: IntentRecord) returns (r: IntentRecord)
      requires rest == Encode(IntentV(i))
      modifies this
      ensures r == i
    {
      ghost var t3 := i.signature + [];
      ghost var t2 := i.scopeHash + t3;
      ghost var t1 := EncodeU64(i.h0) + t2;
      assert rest == i.neuron + t1;
      var neuron := ReadKey(i.neuron, t1);
      var h0 := ReadU64(i.h0, t2);
      var scopeHash := ReadKey(i.scopeHash, t3);
      var signature := Array(64, []);
      r := IntentRecord(neuron, h0, scopeHash, signature);
    }
  }

  // Decoding a snapshot returns exactly the record it was taken of.
  method Decode(a: Address, bytes: seq<byte>, ghost v: Value) returns (r: Value)
    requires Fits(a, v) && !a.Other? && Countable(v) && bytes == Encode(v)
    ensures r == v
  {
    hide Integers64, Flatten, EncodeU64, EncodeU32;
    var reader := new Reader(bytes);
    match a {
      case Particle(_) =>
        var p := reader.ReadParticle(v.p);
        r := ParticleV(p);
      case Out(_) =>
        var l := reader.ReadList(v.l);
        r := ListV(l);
      case In(_) =>
        var l := reader.ReadList(v.l);
        r := ListV(l);
      case Neuron(_) =>
        var n := reader.ReadNeuron(v.n);
        r := NeuronV(n);
      case Time(_) =>
        var root := reader.LastKey(v.root);
        r := TimeV(root);
      case SignalAt(_) =>
        var s := reader.ReadSignal(v.s);
        r := SignalV(s);
      case Commitment(_) =>
        var f := reader.LastU64(v.f);
        r := CommitmentV(f % FIELD);
      case Nullifier(_) =>
        r := NullifierV;
      case Balance(_) =>
        var b := reader.LastU64(v.b);
        r := BalanceV(b);
      case Intent(_) =>
        var i := reader.ReadIntent(v.i);
        r := IntentV(i);
      case Edge(_) =>
        r := reader.ReadEdge(v.from, v.to);
      case Touch(_) =>
        var epoch := reader.LastU64(v.epoch);
        r := TouchV(epoch);
    }
  }
}
