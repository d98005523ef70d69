// The graph state as a value, and what each step of a block does to it.
module Graph {
  import opened Wrappers
  import opened Bytes
  import opened Integers
  import opened Records
  import opened Axons

  const EPOCH_BLOCKS: u64 := 100

  // What a transition never writes: the records of the fixed dimensions and the diameter bound.
  datatype Fixed = Fixed(records: map<(FixedDomain, Key), seq<byte>>, diameter: Option<u64>)

  datatype State = State(
    particles: map<Key, ParticleRecord>,
    axonsOut: Lists,
    axonsIn: Lists,
    neurons: map<Key, NeuronRecord>,
    time: map<u64, Key>,
    signals: map<Key, SignalRecord>,
    commitments: map<Key, felt>,
    nullifiers: set<Key>,
    balances: map<Key, u64>,
    intents: map<Key, IntentRecord>,
    edges: map<Key, (Key, Key)>,
    fixed: Fixed,
    height: u64)

  datatype Checkpoint = Checkpoint(root: Key, proof: Option<seq<byte>>, height: u64)
  datatype PruneConfig = PruneConfig(maxBytes: u64, rankFloorPct: byte, halfLifeEpochs: u64)

  // What a Bbg holds, as a value.
  datatype World = World(state: State, checkpoint: Checkpoint, config: PruneConfig, touched: map<Key, u64>)

  datatype Link = Link(from: Key, to: Key, token: Key, amount: u64)
  datatype BoxMove = BoxMove(nullifier: Key, commitment: Option<(Key, u64)>)
  datatype Signal = Signal(neuron: Key, links: seq<Link>, moves: seq<BoxMove>, height: u64)

  // The hash functions, left arbitrary: no result below needs more of them than it says.
  datatype Hashes = Hashes(
    axonId: (Key, Key) -> Key,
    balanceKey: (Key, Key) -> Key,
    signalKey: (Key, u64) -> Key,
    intentKey: (Key, u64, Key) -> Key,
    root: State -> Key)

  function SatAdd(a: u64, b: u64): u64 { if a + b < U64_BOUND then a + b else U64_BOUND - 1 }
  function SatSub(a: u64, b: u64): u64 { if a >= b then a - b else 0 }
  function ToFelt(v: u64): felt { v % FIELD }

  const ZERO_PARTICLE := ParticleRecord(0, 0, 0, 0, 0, 0)

  function ParticleOr0(s: State, k: Key): ParticleRecord
  {
    if k in s.particles then s.particles[k] else ZERO_PARTICLE
  }

  function BalanceOr0(s: State, k: Key): u64
  {
    if k in s.balances then s.balances[k] else 0
  }

  // AxonIndex::add
  function AddAxon(lists: Lists, p: Key, a: Key): Lists
  {
    var list := if p in lists then lists[p] else [];
    if a in list then lists else lists[p := list + [a]]
  }

  // AxonIndex::remove_axon
  function DropAxon(lists: Lists, p: Key, a: Key): Lists
  {
    if p in lists && a in lists[p] then WithList(lists, p, Retain(lists[p], a)) else lists
  }

  // ---------------------------------------------------------------- one signal's effects

  function Moved(s: State, mv: BoxMove): State
  {
    var spent := s.(nullifiers := s.nullifiers + {mv.nullifier});
    match mv.commitment
    case None => spent
    case Some((point, value)) => spent.(commitments := s.commitments[point := ToFelt(value)])
  }

  function AllMoved(s: State, moves: seq<BoxMove>): State
  {
    if moves == [] then s else Moved(AllMoved(s, moves[..|moves| - 1]), moves[|moves| - 1])
  }

  // The topology a link records, whatever its amount.
  function Wired(h: Hashes, s: State, l: Link): State
  {
    var axon := h.axonId(l.from, l.to);
    s.(axonsOut := AddAxon(s.axonsOut, l.from, axon),
       axonsIn := AddAxon(s.axonsIn, l.to, axon),
       edges := if axon in s.edges then s.edges else s.edges[axon := (l.from, l.to)])
  }

  function Weighed(h: Hashes, s: State, l: Link): State
  {
    var axon := h.axonId(l.from, l.to);
    var p := ParticleOr0(s, axon);
    s.(particles := s.particles[axon := p.(weight := SatAdd(p.weight, l.amount))])
  }

  function Energised(s: State, l: Link): State
  {
    var p := ParticleOr0(s, l.to);
    s.(particles := s.particles[l.to := p.(energy := SatAdd(p.energy, l.amount))])
  }

  function Focused(s: State, neuron: Key, l: Link): State
  {
    if neuron in s.neurons
    then s.(neurons := s.neurons[neuron := s.neurons[neuron].(focus := SatSub(s.neurons[neuron].focus, l.amount))])
    else s
  }

  function Credited(h: Hashes, s: State, l: Link): State
  {
    var k := h.balanceKey(l.to, l.token);
    s.(balances := s.balances[k := SatAdd(BalanceOr0(s, k), l.amount)])
  }

  // Nothing left means no row.
  function Debited(h: Hashes, s: State, l: Link): State
  {
    var k := h.balanceKey(l.from, l.token);
    var next := SatSub(BalanceOr0(s, k), l.amount);
    s.(balances := if next == 0 then s.balances - {k} else s.balances[k := next])
  }

  // Tokens move for a positive amount alone.
  function Linked(h: Hashes, s: State, neuron: Key, l: Link): State
  {
    var w := Wired(h, s, l);
    if l.amount == 0 then w
    else Debited(h, Credited(h, Focused(Energised(Weighed(h, w, l), l), neuron, l), l), l)
  }

  function AllLinked(h: Hashes, s: State, neuron: Key, links: seq<Link>): State
  {
    if links == [] then s else Linked(h, AllLinked(h, s, neuron, links[..|links| - 1]), neuron, links[|links| - 1])
  }

  predicate Spent(s: State, moves: seq<BoxMove>)
  {
    exists i :: 0 <= i < |moves| && moves[i].nullifier in s.nullifiers
  }

  function Epoch(s: State): u64 { s.height / EPOCH_BLOCKS }

  function AllTouched(h: Hashes, touched: map<Key, u64>, links: seq<Link>, epoch: u64): map<Key, u64>
  {
    if links == [] then touched
    else
      var l := links[|links| - 1];
      AllTouched(h, touched, links[..|links| - 1], epoch)[h.axonId(l.from, l.to) := epoch]
  }

  // Bbg::insert, when no nullifier is spent.
  function Inserted(h: Hashes, w: World, sig: Signal): World
  {
    w.(state := AllLinked(h, AllMoved(w.state, sig.moves), sig.neuron, sig.links),
       touched := AllTouched(h, w.touched, sig.links, Epoch(w.state)))
  }

  // Bbg::apply_signal_record
  function Recorded(h: Hashes, w: World, record: SignalRecord): World
  {
    w.(state := w.state.(signals := w.state.signals[h.signalKey(record.neuron, record.step) := record]))
  }

  // Checkpoint::advance. No proof of the new root exists yet.
  function Advanced(h: Hashes, w: World): World
  {
    w.(checkpoint := Checkpoint(h.root(w.state), None, w.state.height))
  }

  // The time row of the closing block, and the next height.
  function Ticked(h: Hashes, w: World): World
    requires w.state.height + 1 < U64_BOUND
  {
    w.(state := w.state.(time := w.state.time[w.state.height := h.root(w.state)], height := w.state.height + 1))
  }
}
