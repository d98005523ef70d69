// The state read by address: what each step leaves unchanged, and what the records are.
module Addresses {
  import opened Wrappers
  import opened Bytes
  import opened Integers
  import opened Records
  import opened Axons
  import opened Graph
  import opened Pruning
  import opened Blocks

  function Lookup<K, V>(m: map<K, V>, k: K): Option<V>
  {
    if k in m then Some(m[k]) else None
  }

  // The value at an address.
  function Get(w: World, a: Address): Option<Value>
  {
    var s := w.state;
    match a
    case Meta => None
    case Other(d, k) => if (d, k) in s.fixed.records then Some(OtherV(s.fixed.records[(d, k)])) else None
    case Particle(k) => if k in s.particles then Some(ParticleV(s.particles[k])) else None
    case Out(k) => if k in s.axonsOut then Some(ListV(s.axonsOut[k])) else None
    case In(k) => if k in s.axonsIn then Some(ListV(s.axonsIn[k])) else None
    case Neuron(k) => if k in s.neurons then Some(NeuronV(s.neurons[k])) else None
    case Time(t) => if t in s.time then Some(TimeV(s.time[t])) else None
    case SignalAt(k) => if k in s.signals then Some(SignalV(s.signals[k])) else None
    case Commitment(k) => if k in s.commitments then Some(CommitmentV(s.commitments[k])) else None
    case Nullifier(k) => if k in s.nullifiers then Some(NullifierV) else None
    case Balance(k) => if k in s.balances then Some(BalanceV(s.balances[k])) else None
    case Intent(k) => if k in s.intents then Some(IntentV(s.intents[k])) else None
    case Edge(k) => if k in s.edges then Some(EdgeV(s.edges[k].0, s.edges[k].1)) else None
    case Touch(k) => if k in w.touched then Some(TouchV(w.touched[k])) else None
  }

  // The parts of the world that no address names.
  ghost predicate SameScalars(w: World, v: World)
  {
    w.state.height == v.state.height && w.checkpoint == v.checkpoint
  }

  ghost predicate SamePolicy(w: World, v: World)
  {
    w.state.fixed.diameter == v.state.fixed.diameter && w.config == v.config
  }

  // w and v agree at every address outside the footprint.
  ghost predicate SameOutside(w: World, v: World, footprint: set<Address>)
  {
    SamePolicy(w, v) && forall a :: a !in footprint ==> Get(v, a) == Get(w, a)
  }

  lemma SameOutsideTrans(u: World, v: World, w: World, footprint: set<Address>)
    requires SameOutside(u, v, footprint) && SameOutside(v, w, footprint)
    ensures SameOutside(u, w, footprint)
  {
  }

  // A world is what its addresses read, its scalars and its policy.
  lemma WorldIsItsReads(w: World, v: World)
    requires SameOutside(w, v, {}) && SameScalars(w, v)
    ensures w == v
  {
    GraphReads(w, v);
    LedgerReads(w, v);
    OtherReads(w, v);
  }

  lemma OtherReads(w: World, v: World)
    requires SameOutside(w, v, {})
    ensures w.touched == v.touched && w.state.fixed == v.state.fixed
  {
    var s, t := w.state.fixed, v.state.fixed;
    forall k
      ensures (k in w.touched <==> k in v.touched) && (k in w.touched ==> w.touched[k] == v.touched[k])
    {
      assert Get(v, Touch(k)) == Get(w, Touch(k));
    }
    forall p
      ensures (p in s.records <==> p in t.records) && (p in s.records ==> s.records[p] == t.records[p])
    {
      assert Get(v, Other(p.0, p.1)) == Get(w, Other(p.0, p.1));
    }
    assert s.records == t.records;
  }

  lemma GraphReads(w: World, v: World)
    requires SameOutside(w, v, {})
    ensures w.state.particles == v.state.particles && w.state.axonsOut == v.state.axonsOut && w.state.axonsIn == v.state.axonsIn
    ensures w.state.neurons == v.state.neurons && w.state.edges == v.state.edges
  {
    var s, t := w.state, v.state;
    forall k
      ensures (k in s.particles <==> k in t.particles) && (k in s.particles ==> s.particles[k] == t.particles[k])
    {
      assert Get(v, Particle(k)) == Get(w, Particle(k));
    }
    forall k
      ensures (k in s.axonsOut <==> k in t.axonsOut) && (k in s.axonsOut ==> s.axonsOut[k] == t.axonsOut[k])
    {
      assert Get(v, Out(k)) == Get(w, Out(k));
    }
    forall k
      ensures (k in s.axonsIn <==> k in t.axonsIn) && (k in s.axonsIn ==> s.axonsIn[k] == t.axonsIn[k])
    {
      assert Get(v, In(k)) == Get(w, In(k));
    }
    forall k
      ensures (k in s.neurons <==> k in t.neurons) && (k in s.neurons ==> s.neurons[k] == t.neurons[k])
    {
      assert Get(v, Neuron(k)) == Get(w, Neuron(k));
    }
    forall k
      ensures (k in s.edges <==> k in t.edges) && (k in s.edges ==> s.edges[k] == t.edges[k])
    {
      assert Get(v, Edge(k)) == Get(w, Edge(k));
    }
  }

  lemma LedgerReads(w: World, v: World)
    requires SameOutside(w, v, {})
    ensures w.state.time == v.state.time && w.state.signals == v.state.signals && w.state.commitments == v.state.commitments
    ensures w.state.nullifiers == v.state.nullifiers && w.state.balances == v.state.balances && w.state.intents == v.state.intents
  {
    var s, t := w.state, v.state;
    forall k
      ensures (k in s.time <==> k in t.time) && (k in s.time ==> s.time[k] == t.time[k])
    {
      assert Get(v, Time(k)) == Get(w, Time(k));
    }
    forall k
      ensures (k in s.signals <==> k in t.signals) && (k in s.signals ==> s.signals[k] == t.signals[k])
    {
      assert Get(v, SignalAt(k)) == Get(w, SignalAt(k));
    }
    forall k
      ensures (k in s.commitments <==> k in t.commitments) && (k in s.commitments ==> s.commitments[k] == t.commitments[k])
    {
      assert Get(v, Commitment(k)) == Get(w, Commitment(k));
    }
    forall k
      ensures (k in s.balances <==> k in t.balances) && (k in s.balances ==> s.balances[k] == t.balances[k])
    {
      assert Get(v, Balance(k)) == Get(w, Balance(k));
    }
    forall k
      ensures (k in s.intents <==> k in t.intents) && (k in s.intents ==> s.intents[k] == t.intents[k])
    {
      assert Get(v, Intent(k)) == Get(w, Intent(k));
    }
    forall k
      ensures k in s.nullifiers <==> k in t.nullifiers
    {
      assert Get(v, Nullifier(k)) == Get(w, Nullifier(k));
    }
  }

  // ---------------------------------------------------------------- writes to one address

  lemma WriteParticle(w: World, k: Key, m: map<Key, ParticleRecord>, footprint: set<Address>)
    requires Particle(k) in footprint && m - {k} == w.state.particles - {k}
    ensures SameOutside(w, w.(state := w.state.(particles := m)), footprint)
  {
    var v := w.(state := w.state.(particles := m));
    forall a | a !in footprint
      ensures Get(v, a) == Get(w, a)
    {
      if a.Particle? {
        OffKey(m, w.state.particles, k, a.k);
      }
    }
  }

  lemma WriteOut(w: World, k: Key, m: Lists, footprint: set<Address>)
    requires Out(k) in footprint && m - {k} == w.state.axonsOut - {k}
    ensures SameOutside(w, w.(state := w.state.(axonsOut := m)), footprint)
  {
    var v := w.(state := w.state.(axonsOut := m));
    forall a | a !in footprint
      ensures Get(v, a) == Get(w, a)
    {
      match a
      case Out(x) => OffKey(m, w.state.axonsOut, k, x);
      case _ =>
    }
  }

  lemma WriteIn(w: World, k: Key, m: Lists, footprint: set<Address>)
    requires In(k) in footprint && m - {k} == w.state.axonsIn - {k}
    ensures SameOutside(w, w.(state := w.state.(axonsIn := m)), footprint)
  {
    var v := w.(state := w.state.(axonsIn := m));
    forall a | a !in footprint
      ensures Get(v, a) == Get(w, a)
    {
      if a.In? {
        OffKey(m, w.state.axonsIn, k, a.k);
      }
    }
  }

  lemma WriteNeuron(w: World, k: Key, m: map<Key, NeuronRecord>, footprint: set<Address>)
    requires Neuron(k) in footprint && m - {k} == w.state.neurons - {k}
    ensures SameOutside(w, w.(state := w.state.(neurons := m)), footprint)
  {
    var v := w.(state := w.state.(neurons := m));
    forall a | a !in footprint
      ensures Get(v, a) == Get(w, a)
    {
      if a.Neuron? {
        OffKey(m, w.state.neurons, k, a.k);
      }
    }
  }

  lemma WriteEdge(w: World, k: Key, m: map<Key, (Key, Key)>, footprint: set<Address>)
    requires Edge(k) in footprint && m - {k} == w.state.edges - {k}
    ensures SameOutside(w, w.(state := w.state.(edges := m)), footprint)
  {
    var v := w.(state := w.state.(edges := m));
    forall a | a !in footprint
      ensures Get(v, a) == Get(w, a)
    {
      if a.Edge? {
        OffKey(m, w.state.edges, k, a.k);
      }
    }
  }

  lemma WriteTime(w: World, k: u64, m: map<u64, Key>, footprint: set<Address>)
    requires Time(k) in footprint && m - {k} == w.state.time - {k}
    ensures SameOutside(w, w.(state := w.state.(time := m)), footprint)
  {
    var v := w.(state := w.state.(time := m));
    forall a | a !in footprint
      ensures Get(v, a) == Get(w, a)
    {
      if a.Time? {
        OffKey(m, w.state.time, k, a.h);
      }
    }
  }

  lemma WriteSignalAt(w: World, k: Key, m: map<Key, SignalRecord>, footprint: set<Address>)
    requires SignalAt(k) in footprint && m - {k} == w.state.signals - {k}
    ensures SameOutside(w, w.(state := w.state.(signals := m)), footprint)
  {
    var v := w.(state := w.state.(signals := m));
    forall a | a !in footprint
      ensures Get(v, a) == Get(w, a)
    {
      if a.SignalAt? {
        OffKey(m, w.state.signals, k, a.k);
      }
    }
  }

  lemma WriteBalance(w: World, k: Key, m: map<Key, u64>, footprint: set<Address>)
    requires Balance(k) in footprint && m - {k} == w.state.balances - {k}
    ensures SameOutside(w, w.(state := w.state.(balances := m)), footprint)
  {
    var v := w.(state := w.state.(balances := m));
    forall a | a !in footprint
      ensures Get(v, a) == Get(w, a)
    {
      if a.Balance? {
        OffKey(m, w.state.balances, k, a.k);
      }
    }
  }

  lemma WriteCommitment(w: World, k: Key, m: map<Key, felt>, footprint: set<Address>)
    requires Commitment(k) in footprint && m - {k} == w.state.commitments - {k}
    ensures SameOutside(w, w.(state := w.state.(commitments := m)), footprint)
  {
    var v := w.(state := w.state.(commitments := m));
    forall a | a !in footprint
      ensures Get(v, a) == Get(w, a)
    {
      if a.Commitment? {
        OffKey(m, w.state.commitments, k, a.k);
      }
    }
  }

  lemma WriteIntent(w: World, k: Key, m: map<Key, IntentRecord>, footprint: set<Address>)
    requires Intent(k) in footprint && m - {k} == w.state.intents - {k}
    ensures SameOutside(w, w.(state := w.state.(intents := m)), footprint)
  {
    var v := w.(state := w.state.(intents := m));
    forall a | a !in footprint
      ensures Get(v, a) == Get(w, a)
    {
      if a.Intent? {
        OffKey(m, w.state.intents, k, a.k);
      }
    }
  }

  lemma WriteNullifier(w: World, k: Key, n: set<Key>, footprint: set<Address>)
    requires Nullifier(k) in footprint && n - {k} == w.state.nullifiers - {k}
    ensures SameOutside(w, w.(state := w.state.(nullifiers := n)), footprint)
  {
    var v := w.(state := w.state.(nullifiers := n));
    forall a | a !in footprint
      ensures Get(v, a) == Get(w, a)
    {
      if a.Nullifier? {
        assert a.k in n <==> a.k in n - {k};
        assert a.k in w.state.nullifiers <==> a.k in w.state.nullifiers - {k};
      }
    }
  }

  lemma WriteTouch(w: World, k: Key, m: map<Key, u64>, footprint: set<Address>)
    requires Touch(k) in footprint && m - {k} == w.touched - {k}
    ensures SameOutside(w, w.(touched := m), footprint)
  {
    var v := w.(touched := m);
    forall a | a !in footprint
      ensures Get(v, a) == Get(w, a)
    {
      if a.Touch? {
        OffKey(m, w.touched, k, a.k);
      }
    }
  }

  lemma OffKey<K, V>(m: map<K, V>, n: map<K, V>, k: K, x: K)
    requires m - {k} == n - {k} && x != k
    ensures (x in m <==> x in n) && (x in m ==> m[x] == n[x])
  {
    assert x in m <==> x in m - {k};
    assert x in n <==> x in n - {k};
  }

  // ---------------------------------------------------------------- what each step may change

  ghost predicate CoversMove(footprint: set<Address>, mv: BoxMove)
  {
    Nullifier(mv.nullifier) in footprint && (mv.commitment.Some? ==> Commitment(mv.commitment.value.0) in footprint)
  }

  ghost predicate CoversLink(footprint: set<Address>, h: Hashes, l: Link)
  {
    var axon := h.axonId(l.from, l.to);
    && Particle(axon) in footprint && Particle(l.to) in footprint && Out(l.from) in footprint && In(l.to) in footprint
    && Balance(h.balanceKey(l.from, l.token)) in footprint && Balance(h.balanceKey(l.to, l.token)) in footprint
    && Edge(axon) in footprint && Touch(axon) in footprint
  }

  ghost predicate CoversMoves(footprint: set<Address>, moves: seq<BoxMove>)
  {
    forall i :: 0 <= i < |moves| ==> CoversMove(footprint, moves[i])
  }

  ghost predicate CoversLinks(footprint: set<Address>, h: Hashes, links: seq<Link>)
  {
    forall i :: 0 <= i < |links| ==> CoversLink(footprint, h, links[i])
  }

  ghost predicate CoversRemoval(footprint: set<Address>, w: World, axon: Key)
  {
    && Particle(axon) in footprint && Edge(axon) in footprint && Touch(axon) in footprint
    && (axon in w.state.edges ==> Out(w.state.edges[axon].0) in footprint && In(w.state.edges[axon].1) in footprint)
  }

  lemma {:induction false} MovesFrame(w: World, moves: seq<BoxMove>, footprint: set<Address>)
    requires CoversMoves(footprint, moves)
    ensures SameOutside(w, w.(state := AllMoved(w.state, moves)), footprint)
  {
    if moves != [] {
      var before := moves[..|moves| - 1];
      MovesFrame(w, before, footprint);
      var v := w.(state := AllMoved(w.state, before));
      assert CoversMove(footprint, moves[|moves| - 1]);
      MoveFrame(v, moves[|moves| - 1], footprint);
      SameOutsideTrans(w, v, w.(state := AllMoved(w.state, moves)), footprint);
    }
  }

  lemma MoveFrame(w: World, mv: BoxMove, footprint: set<Address>)
    requires CoversMove(footprint, mv)
    ensures SameOutside(w, w.(state := Moved(w.state, mv)), footprint)
  {
    hide SameOutside;
    var k := mv.nullifier;
    var spent := w.(state := w.state.(nullifiers := w.state.nullifiers + {k}));
    WriteNullifier(w, k, w.state.nullifiers + {k}, footprint);
    if mv.commitment.Some? {
      WriteCommitment(spent, mv.commitment.value.0, Moved(w.state, mv).commitments, footprint);
      SameOutsideTrans(w, spent, w.(state := Moved(w.state, mv)), footprint);
    }
  }

  lemma {:induction false} LinksFrame(h: Hashes, w: World, neuron: Key, links: seq<Link>, footprint: set<Address>)
    requires CoversLinks(footprint, h, links) && Neuron(neuron) in footprint
    ensures SameOutside(w, w.(state := AllLinked(h, w.state, neuron, links)), footprint)
  {
    if links != [] {
      var before, l := links[..|links| - 1], links[|links| - 1];
      LinksFrame(h, w, neuron, before, footprint);
      var v := w.(state := AllLinked(h, w.state, neuron, before));
      assert CoversLink(footprint, h, l);
      LinkFrame(h, v, neuron, l, footprint);
      SameOutsideTrans(w, v, w.(state := AllLinked(h, w.state, neuron, links)), footprint);
    }
  }

  lemma LinkFrame(h: Hashes, w: World, neuron: Key, l: Link, footprint: set<Address>)
    requires CoversLink(footprint, h, l) && Neuron(neuron) in footprint
    ensures SameOutside(w, w.(state := Linked(h, w.state, neuron, l)), footprint)
  {
    var s1 := Wired(h, w.state, l);
    WiredFrame(h, w, l, footprint);
    if l.amount > 0 {
      var s2 := Focused(Energised(Weighed(h, s1, l), l), neuron, l);
      ConvictionFrame(h, w.(state := s1), neuron, l, footprint);
      TransferFrame(h, w.(state := s2), l, footprint);
      SameOutsideTrans(w, w.(state := s1), w.(state := s2), footprint);
      SameOutsideTrans(w, w.(state := s2), w.(state := Linked(h, w.state, neuron, l)), footprint);
    }
  }

  lemma WiredFrame(h: Hashes, w: World, l: Link, footprint: set<Address>)
    requires CoversLink(footprint, h, l)
    ensures SameOutside(w, w.(state := Wired(h, w.state, l)), footprint)
  {
    hide SameOutside, AddAxon;
    var s, axon := w.state, h.axonId(l.from, l.to);
    AddAxonOff(s.axonsOut, l.from, axon);
    AddAxonOff(s.axonsIn, l.to, axon);
    var s1 := s.(axonsOut := AddAxon(s.axonsOut, l.from, axon));
    var s2 := s1.(axonsIn := AddAxon(s.axonsIn, l.to, axon));
    WriteOut(w, l.from, s1.axonsOut, footprint);
    WriteIn(w.(state := s1), l.to, s2.axonsIn, footprint);
    WriteEdge(w.(state := s2), axon, Wired(h, s, l).edges, footprint);
    SameOutsideTrans(w, w.(state := s1), w.(state := s2), footprint);
    SameOutsideTrans(w, w.(state := s2), w.(state := Wired(h, s, l)), footprint);
  }

  lemma AddAxonOff(lists: Lists, p: Key, a: Key)
    ensures AddAxon(lists, p, a) - {p} == lists - {p}
    ensures DropAxon(lists, p, a) - {p} == lists - {p}
  {
  }

  lemma ConvictionFrame(h: Hashes, w: World, neuron: Key, l: Link, footprint: set<Address>)
    requires CoversLink(footprint, h, l) && Neuron(neuron) in footprint
    ensures SameOutside(w, w.(state := Focused(Energised(Weighed(h, w.state, l), l), neuron, l)), footprint)
  {
    hide SameOutside;
    var s1 := Weighed(h, w.state, l);
    var s2 := Energised(s1, l);
    var s3 := Focused(s2, neuron, l);
    WriteParticle(w, h.axonId(l.from, l.to), s1.particles, footprint);
    WriteParticle(w.(state := s1), l.to, s2.particles, footprint);
    WriteNeuron(w.(state := s2), neuron, s3.neurons, footprint);
    SameOutsideTrans(w, w.(state := s1), w.(state := s2), footprint);
    SameOutsideTrans(w, w.(state := s2), w.(state := s3), footprint);
  }

  lemma TransferFrame(h: Hashes, w: World, l: Link, footprint: set<Address>)
    requires CoversLink(footprint, h, l)
    ensures SameOutside(w, w.(state := Debited(h, Credited(h, w.state, l), l)), footprint)
  {
    hide SameOutside;
    var s1 := Credited(h, w.state, l);
    var s2 := Debited(h, s1, l);
    WriteBalance(w, h.balanceKey(l.to, l.token), s1.balances, footprint);
    WriteBalance(w.(state := s1), h.balanceKey(l.from, l.token), s2.balances, footprint);
    SameOutsideTrans(w, w.(state := s1), w.(state := s2), footprint);
  }

  lemma {:induction false} TouchFrame(h: Hashes, w: World, links: seq<Link>, epoch: u64, footprint: set<Address>)
    requires CoversLinks(footprint, h, links)
    ensures SameOutside(w, w.(touched := AllTouched(h, w.touched, links, epoch)), footprint)
  {
    if links != [] {
      TouchFrame(h, w, links[..|links| - 1], epoch, footprint);
      assert CoversLink(footprint, h, links[|links| - 1]);
    }
  }

  // Inserting a signal changes only the addresses it names.
  lemma InsertFrame(h: Hashes, w: World, sig: Signal, footprint: set<Address>)
    requires CoversMoves(footprint, sig.moves) && CoversLinks(footprint, h, sig.links) && Neuron(sig.neuron) in footprint
    ensures SameOutside(w, Inserted(h, w, sig), footprint)
  {
    var v := w.(state := AllMoved(w.state, sig.moves));
    MovesFrame(w, sig.moves, footprint);
    var u := v.(state := AllLinked(h, v.state, sig.neuron, sig.links));
    LinksFrame(h, v, sig.neuron, sig.links, footprint);
    TouchFrame(h, u, sig.links, Epoch(w.state), footprint);
    SameOutsideTrans(w, v, u, footprint);
    SameOutsideTrans(w, u, Inserted(h, w, sig), footprint);
  }

  lemma RecordFrame(h: Hashes, w: World, record: SignalRecord, footprint: set<Address>)
    requires SignalAt(h.signalKey(record.neuron, record.step)) in footprint
    ensures SameOutside(w, Recorded(h, w, record), footprint)
  {
    hide SameOutside;
    WriteSignalAt(w, h.signalKey(record.neuron, record.step), Recorded(h, w, record).state.signals, footprint);
  }

  lemma TickFrame(h: Hashes, w: World, footprint: set<Address>)
    requires w.state.height + 1 < U64_BOUND && Time(w.state.height) in footprint
    ensures SameOutside(w, Ticked(h, w), footprint)
  {
    hide SameOutside;
    var v := w.(state := w.state.(time := Ticked(h, w).state.time));
    WriteTime(w, w.state.height, v.state.time, footprint);
    HeightFrame(v, w.state.height + 1, footprint);
    SameOutsideTrans(w, v, Ticked(h, w), footprint);
  }

  lemma CheckpointFrame(w: World, c: Checkpoint, footprint: set<Address>)
    ensures SameOutside(w, w.(checkpoint := c), footprint)
  {
  }

  lemma HeightFrame(w: World, height: u64, footprint: set<Address>)
    ensures SameOutside(w, w.(state := w.state.(height := height)), footprint)
  {
  }

  lemma RemovalFrame(w: World, axon: Key, footprint: set<Address>)
    requires CoversRemoval(footprint, w, axon)
    ensures SameOutside(w, Removed(w, axon), footprint)
  {
    hide SameOutside, DropAxon;
    var w1 := w.(state := w.state.(particles := w.state.particles - {axon}));
    WriteParticle(w, axon, w1.state.particles, footprint);
    var w2 := w1.(touched := w.touched - {axon});
    WriteTouch(w1, axon, w2.touched, footprint);
    SameOutsideTrans(w, w1, w2, footprint);
    if axon in w.state.edges {
      var (from, to) := w.state.edges[axon];
      var w3 := w2.(state := w2.state.(edges := w2.state.edges - {axon}));
      WriteEdge(w2, axon, w3.state.edges, footprint);
      AddAxonOff(w3.state.axonsOut, from, axon);
      AddAxonOff(w3.state.axonsIn, to, axon);
      var w4 := w3.(state := w3.state.(axonsOut := DropAxon(w3.state.axonsOut, from, axon)));
      WriteOut(w3, from, w4.state.axonsOut, footprint);
      WriteIn(w4, to, Removed(w, axon).state.axonsIn, footprint);
      SameOutsideTrans(w, w2, w3, footprint);
      SameOutsideTrans(w, w3, w4, footprint);
      SameOutsideTrans(w, w4, Removed(w, axon), footprint);
    }
  }

  // ---------------------------------------------------------------- restoring an address

  function SetOrRemove<K, V>(m: map<K, V>, k: K, v: Option<V>): map<K, V>
  {
    match v
    case None => m - {k}
    case Some(x) => m[k := x]
  }

  // AxonIndex::insert or ::remove
  function SetList(lists: Lists, p: Key, list: Option<seq<Key>>): Lists
  {
    match list
    case None => lists - {p}
    case Some(l) => WithList(lists, p, Dedup(l))
  }

  // Write a value back, or remove the record. The metadata is not restored by address.
  function Put(w: World, a: Address, v: Option<Value>): World
    requires !a.Other? && (a != Meta && v.Some? ==> Fits(a, v.value))
  {
    var s := w.state;
    match a
    case Meta => w
    case Particle(k) => w.(state := s.(particles := SetOrRemove(s.particles, k, if v.None? then None else Some(v.value.p))))
    case Out(k) => w.(state := s.(axonsOut := SetList(s.axonsOut, k, if v.None? then None else Some(v.value.l))))
    case In(k) => w.(state := s.(axonsIn := SetList(s.axonsIn, k, if v.None? then None else Some(v.value.l))))
    case Neuron(k) => w.(state := s.(neurons := SetOrRemove(s.neurons, k, if v.None? then None else Some(v.value.n))))
    case Time(t) => w.(state := s.(time := SetOrRemove(s.time, t, if v.None? then None else Some(v.value.root))))
    case SignalAt(k) => w.(state := s.(signals := SetOrRemove(s.signals, k, if v.None? then None else Some(v.value.s))))
    case Commitment(k) => w.(state := s.(commitments := SetOrRemove(s.commitments, k, if v.None? then None else Some(v.value.f))))
    case Balance(k) => w.(state := s.(balances := SetOrRemove(s.balances, k, if v.None? then None else Some(v.value.b))))
    case Intent(k) => w.(state := s.(intents := SetOrRemove(s.intents, k, if v.None? then None else Some(v.value.i))))
    case Edge(k) => w.(state := s.(edges := SetOrRemove(s.edges, k, if v.None? then None else Some((v.value.from, v.value.to)))))
    case Nullifier(k) => w.(state := s.(nullifiers := if v.None? then s.nullifiers - {k} else s.nullifiers + {k}))
    case Touch(k) => w.(touched := SetOrRemove(w.touched, k, if v.None? then None else Some(v.value.epoch)))
  }

  // A list is restored exactly when it is nonempty and free of duplicates.
  ghost predicate Restorable(a: Address, v: Option<Value>)
  {
    (a.Out? || a.In?) && v.Some? && v.value.ListV? ==> v.value.l != [] && NoDup(v.value.l)
  }

  lemma SetOff<K, V>(m: map<K, V>, k: K, v: Option<V>)
    ensures SetOrRemove(m, k, v) - {k} == m - {k}
    ensures Lookup(SetOrRemove(m, k, v), k) == v
  {
  }

  lemma SetListOff(lists: Lists, p: Key, list: Option<seq<Key>>)
    ensures SetList(lists, p, list) - {p} == lists - {p}
    ensures list.Some? && list.value != [] && NoDup(list.value) ==> Lookup(SetList(lists, p, list), p) == list
    ensures list.None? ==> Lookup(SetList(lists, p, list), p) == None
  {
    if list.Some? {
      DedupFacts(list.value);
    }
  }

  // Putting a value back sets its address and no other.
  lemma PutFrame(w: World, a: Address, v: Option<Value>)
    requires !a.Other? && a != Meta && (v.Some? ==> Fits(a, v.value)) && Restorable(a, v)
    ensures SameOutside(w, Put(w, a, v), {a}) && Get(Put(w, a, v), a) == v
    ensures Put(w, a, v).checkpoint == w.checkpoint
  {
    hide SameOutside;
    var s := w.state;
    match a {
      case Particle(k) =>
        SetOff(s.particles, k, if v.None? then None else Some(v.value.p));
        WriteParticle(w, k, Put(w, a, v).state.particles, {a});
      case Out(k) =>
        SetListOff(s.axonsOut, k, if v.None? then None else Some(v.value.l));
        WriteOut(w, k, Put(w, a, v).state.axonsOut, {a});
      case In(k) =>
        SetListOff(s.axonsIn, k, if v.None? then None else Some(v.value.l));
        WriteIn(w, k, Put(w, a, v).state.axonsIn, {a});
      case Neuron(k) =>
        SetOff(s.neurons, k, if v.None? then None else Some(v.value.n));
        WriteNeuron(w, k, Put(w, a, v).state.neurons, {a});
      case Time(t) =>
        SetOff(s.time, t, if v.None? then None else Some(v.value.root));
        WriteTime(w, t, Put(w, a, v).state.time, {a});
      case SignalAt(k) =>
        SetOff(s.signals, k, if v.None? then None else Some(v.value.s));
        WriteSignalAt(w, k, Put(w, a, v).state.signals, {a});
      case Commitment(k) =>
        SetOff(s.commitments, k, if v.None? then None else Some(v.value.f));
        WriteCommitment(w, k, Put(w, a, v).state.commitments, {a});
      case Balance(k) =>
        SetOff(s.balances, k, if v.None? then None else Some(v.value.b));
        WriteBalance(w, k, Put(w, a, v).state.balances, {a});
      case Intent(k) =>
        SetOff(s.intents, k, if v.None? then None else Some(v.value.i));
        WriteIntent(w, k, Put(w, a, v).state.intents, {a});
      case Edge(k) =>
        SetOff(s.edges, k, if v.None? then None else Some((v.value.from, v.value.to)));
        WriteEdge(w, k, Put(w, a, v).state.edges, {a});
      case Nullifier(k) =>
        WriteNullifier(w, k, Put(w, a, v).state.nullifiers, {a});
      case Touch(k) =>
        SetOff(w.touched, k, if v.None? then None else Some(v.value.epoch));
        WriteTouch(w, k, Put(w, a, v).touched, {a});
    }
  }

  // Every present value is of its address's kind.
  lemma GetFits(w: World, a: Address)
    ensures Get(w, a).Some? ==> Fits(a, Get(w, a).value)
  {
  }
}
