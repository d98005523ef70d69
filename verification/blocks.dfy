// The ordinary path: Bbg, mutated signal by signal and block by block.
module Blocks {
  import opened Wrappers
  import opened Bytes
  import opened Integers
  import opened Records
  import opened Axons
  import opened Graph
  import opened Effects
  import opened Pruning
  import opened Sorting
  import opened Cycles

  // Bbg::finalize_block. The time row is keyed by the height that closes.
  ghost function Finalized(h: Hashes, w: World): World
    requires w.state.height + 1 < U64_BOUND
  {
    Advanced(h, AtEpoch(Ticked(h, w)))
  }

  ghost function AtEpoch(w: World): World
  {
    if w.state.height % EPOCH_BLOCKS == 0 then Pruned(w, Epoch(w.state)) else w
  }

  // Inserting a signal leaves the height alone.
  lemma HeightKept(h: Hashes, s: State, sig: Signal)
    ensures AllLinked(h, AllMoved(s, sig.moves), sig.neuron, sig.links).height == s.height
  {
    MovesKeepHeight(s, sig.moves);
    LinksKeepHeight(h, AllMoved(s, sig.moves), sig.neuron, sig.links);
  }

  lemma MovesKeepHeight(s: State, moves: seq<BoxMove>)
    ensures AllMoved(s, moves).height == s.height
  {
  }

  lemma LinksKeepHeight(h: Hashes, s: State, neuron: Key, links: seq<Link>)
    ensures AllLinked(h, s, neuron, links).height == s.height
  {
  }

  lemma LinksSpendNothing(h: Hashes, s: State, neuron: Key, links: seq<Link>)
    ensures AllLinked(h, s, neuron, links).nullifiers == s.nullifiers
  {
    LinksAside(h, s, neuron, links);
  }

  class Bbg {
    const h: Hashes
    var state: State
    var checkpoint: Checkpoint
    var config: PruneConfig
    var touched: map<Key, u64>

    function World(): World
      reads this
    {
      Graph.World(state, checkpoint, config, touched)
    }

    constructor (h: Hashes, config: PruneConfig)
      ensures this.h == h && World().config == config && World().checkpoint.proof == None
    {
      var empty := State(map[], map[], map[], map[], map[], map[], map[], {}, map[], map[], map[], Fixed(map[], None), 0);
      this.h := h;
      state := empty;
      checkpoint := Checkpoint(h.root(empty), None, 0);
      this.config := config;
      touched := map[];
    }

    // Apply one signal, unless it spends a nullifier twice.
    method Insert(sig: Signal) returns (ok: bool)
      modifies this`state, this`touched
      ensures ok == forall i :: 0 <= i < |sig.moves| ==> sig.moves[i].nullifier !in old(state).nullifiers
      ensures World() == if ok then Inserted(h, old(World()), sig) else old(World())
      ensures ok ==> state.nullifiers == old(state).nullifiers + (set i | 0 <= i < |sig.moves| :: sig.moves[i].nullifier)
      ensures ok ==> Effected(h, old(World()), World(), sig)
    {
      hide Effected, AllMoved, AllLinked;
      ghost var w := World();
      HeightKept(h, state, sig);
      ok := InsertState(sig);
      if ok {
        Touch(sig.links, Epoch(state));
        InsertedEffects(h, w, sig);
      }
    }

    // prune_state.touch for every link.
    method Touch(links: seq<Link>, epoch: u64)
      modifies this`touched
      ensures touched == AllTouched(h, old(touched), links, epoch)
      ensures TouchesAfter(h, old(touched), touched, links, epoch)
    {
      hide TouchesAfter;
      LinksTouch(h, touched, links, epoch);
      var i := 0;
      while i < |links|
        invariant 0 <= i <= |links| && touched == AllTouched(h, old(touched), links[..i], epoch)
      {
        assert links[..i + 1][..i] == links[..i];
        touched := touched[h.axonId(links[i].from, links[i].to) := epoch];
        i := i + 1;
      }
      assert links[..i] == links;
    }

    // BbgState::insert
    method InsertState(sig: Signal) returns (ok: bool)
      modifies this`state
      ensures ok == forall i :: 0 <= i < |sig.moves| ==> sig.moves[i].nullifier !in old(state).nullifiers
      ensures state == if ok then AllLinked(h, AllMoved(old(state), sig.moves), sig.neuron, sig.links) else old(state)
      ensures ok ==> state.nullifiers == old(state).nullifiers + (set i | 0 <= i < |sig.moves| :: sig.moves[i].nullifier)
    {
      hide Linked, AllMoved, CommitmentsAfter, Aside;
      ghost var start := state;
      var spent := AnySpent(sig.moves);
      if spent {
        return false;
      }
      ApplyMoves(sig.moves);
      ghost var before := state;
      var i := 0;
      while i < |sig.links|
        invariant 0 <= i <= |sig.links| && state == AllLinked(h, before, sig.neuron, sig.links[..i])
      {
        assert sig.links[..i + 1][..i] == sig.links[..i];
        ApplyLink(sig.neuron, sig.links[i]);
        i := i + 1;
      }
      assert sig.links[..i] == sig.links;
      MovesAfter(start, sig.moves);
      LinksSpendNothing(h, before, sig.neuron, sig.links);
      ok := true;
    }

    method AnySpent(moves: seq<BoxMove>) returns (spent: bool)
      ensures spent == exists i :: 0 <= i < |moves| && moves[i].nullifier in state.nullifiers
    {
      var i := 0;
      while i < |moves|
        invariant 0 <= i <= |moves|
        invariant forall j :: 0 <= j < i ==> moves[j].nullifier !in state.nullifiers
      {
        if moves[i].nullifier in state.nullifiers {
          return true;
        }
        i := i + 1;
      }
      spent := false;
    }

    // Spend the nullifiers and record the new commitments.
    method ApplyMoves(moves: seq<BoxMove>)
      modifies this`state
      ensures state == AllMoved(old(state), moves)
    {
      var i := 0;
      while i < |moves|
        invariant 0 <= i <= |moves| && state == AllMoved(old(state), moves[..i])
      {
        var mv := moves[i];
        assert moves[..i + 1][..i] == moves[..i];
        state := state.(nullifiers := state.nullifiers + {mv.nullifier});
        if mv.commitment.Some? {
          state := state.(commitments := state.commitments[mv.commitment.value.0 := ToFelt(mv.commitment.value.1)]);
        }
        i := i + 1;
      }
      assert moves[..i] == moves;
    }

    // One cyberlink, write by write.
    method ApplyLink(neuron: Key, l: Link)
      modifies this`state
      ensures state == Linked(h, old(state), neuron, l)
    {
      var axon := h.axonId(l.from, l.to);
      state := state.(axonsOut := AddAxon(state.axonsOut, l.from, axon));
      state := state.(axonsIn := AddAxon(state.axonsIn, l.to, axon));
      if axon !in state.edges {
        state := state.(edges := state.edges[axon := (l.from, l.to)]);
      }
      assert state == Wired(h, old(state), l);
      if l.amount > 0 {
        ApplyConviction(neuron, l);
        ApplyTransfer(l);
      }
    }

    // The axon's weight, the target's energy, the neuron's focus.
    method ApplyConviction(neuron: Key, l: Link)
      modifies this`state
      ensures state == Focused(Energised(Weighed(h, old(state), l), l), neuron, l)
    {
      hide SatAdd, SatSub;
      AddWeight(h.axonId(l.from, l.to), l.amount);
      AddEnergy(l.to, l.amount);
      if neuron in state.neurons {
        var n := state.neurons[neuron];
        state := state.(neurons := state.neurons[neuron := n.(focus := SatSub(n.focus, l.amount))]);
      }
    }

    method AddWeight(axon: Key, amount: u64)
      modifies this`state
      ensures var p := ParticleOr0(old(state), axon);
              state == old(state).(particles := old(state).particles[axon := p.(weight := SatAdd(p.weight, amount))])
    {
      var weight := if axon in state.particles then SatAdd(state.particles[axon].weight, amount) else amount;
      state := state.(particles := state.particles[axon := ParticleOr0(state, axon).(weight := weight)]);
    }

    method AddEnergy(particle: Key, amount: u64)
      modifies this`state
      ensures var p := ParticleOr0(old(state), particle);
              state == old(state).(particles := old(state).particles[particle := p.(energy := SatAdd(p.energy, amount))])
    {
      var energy := if particle in state.particles then SatAdd(state.particles[particle].energy, amount) else amount;
      state := state.(particles := state.particles[particle := ParticleOr0(state, particle).(energy := energy)]);
    }

    // The public output, then the public input; what is spent to nothing leaves no row.
    method ApplyTransfer(l: Link)
      modifies this`state
      ensures state == Debited(h, Credited(h, old(state), l), l)
    {
      CreditBalance(h.balanceKey(l.to, l.token), l.amount);
      assert state == Credited(h, old(state), l);
      DebitBalance(h.balanceKey(l.from, l.token), l.amount);
    }

    method CreditBalance(k: Key, amount: u64)
      modifies this`state
      ensures state == old(state).(balances := old(state).balances[k := SatAdd(BalanceOr0(old(state), k), amount)])
    {
      var credited := if k in state.balances then SatAdd(state.balances[k], amount) else amount;
      state := state.(balances := state.balances[k := credited]);
    }

    method DebitBalance(k: Key, amount: u64)
      modifies this`state
      ensures var next := SatSub(BalanceOr0(old(state), k), amount);
              state == old(state).(balances := if next == 0 then old(state).balances - {k} else old(state).balances[k := next])
    {
      var next := if k in state.balances then SatSub(state.balances[k], amount) else 0;
      if next == 0 {
        state := state.(balances := state.balances - {k});
      } else {
        state := state.(balances := state.balances[k := next]);
      }
    }

    // Persist a signal header at its signal key.
    method ApplySignalRecord(record: SignalRecord)
      modifies this`state
      ensures World() == Recorded(h, old(World()), record)
      ensures state.signals == old(state).signals[h.signalKey(record.neuron, record.step) := record]
      ensures state == old(state).(signals := state.signals)
    {
      state := state.(signals := state.signals[h.signalKey(record.neuron, record.step) := record]);
    }

    // Store an intent under its key.
    method ApplyIntent(intent: IntentRecord)
      modifies this`state
      ensures state == old(state).(intents := old(state).intents[h.intentKey(intent.neuron, intent.h0, intent.scopeHash) := intent])
    {
      state := state.(intents := state.intents[h.intentKey(intent.neuron, intent.h0, intent.scopeHash) := intent]);
    }

    // The time row of the closing block, and the next height.
    method Tick()
      requires state.height + 1 < U64_BOUND
      modifies this`state
      ensures World() == Ticked(h, old(World()))
      ensures state == old(state).(time := old(state).time[old(state).height := h.root(old(state))], height := old(state).height + 1)
    {
      state := state.(time := state.time[state.height := h.root(state)]);
      state := state.(height := state.height + 1);
    }

    // Close the block.
    method FinalizeBlock()
      requires state.height + 1 < U64_BOUND
      modifies this
      ensures World() == Finalized(h, old(World()))
      ensures state.height == old(state).height + 1 && checkpoint == Checkpoint(h.root(state), None, state.height)
      ensures state.time == old(state).time[old(state).height := h.root(old(state))]
      ensures state.height % 100 != 0 ==> state == old(state).(time := state.time, height := state.height) && touched == old(touched)
      ensures state.height % 100 == 0 ==>
                Cycled(old(World()).(state := old(state).(time := state.time, height := state.height)),
                       old(World()).(state := state, touched := touched), state.height / 100)
      ensures config == old(config)
    {
      hide Cycled, Pruned, Took;
      Tick();
      ghost var ticked := World();
      if state.height % EPOCH_BLOCKS == 0 {
        PrunedIsCycle(ticked, Epoch(state));
        CycleKeeps(ticked, Pruned(ticked, Epoch(state)), Epoch(state));
        Prune(Epoch(state));
      }
      checkpoint := Checkpoint(h.root(state), None, state.height);
    }

    // One pruning cycle, with no bound on the candidates.
    method Prune(epoch: u64)
      modifies this`state, this`touched
      ensures World() == Pruned(old(World()), epoch)
      ensures Cycled(old(World()), World(), epoch)
    {
      hide Cycled, Planned, Occupied, Estimate, OverBudget, Took, Pruned, Candidates, Ordered, RankFloor, Cut, StopsAt, AllRemoved, Removed;
      ghost var w := World();
      PrunedIsCycle(w, epoch);
      var over, plan := Pruning.Plan(World(), epoch, |state.particles| + |touched|);
      CandidateBound(w, epoch);
      PrunedTo(w, epoch);
      var sorted := plan.value;
      var i := 0;
      NothingRemoved(w, sorted);
      while i < |sorted|
        invariant 0 <= i <= |sorted| && World() == AllRemoved(w, sorted[..i])
        invariant Cut(w, sorted, over, 0) == Cut(w, sorted, over, i)
      {
        var size := EstimateBytes(state);
        StopsWhen(w, sorted, over, i, World());
        CutStep(w, sorted, over, i);
        if over && size <= config.maxBytes {
          return;
        }
        RemoveNext(w, sorted, i);
        RemoveAxon(sorted[i]);
        i := i + 1;
      }
      CutStep(w, sorted, over, i);
    }

    method RemoveAxon(axon: Key)
      modifies this`state, this`touched
      ensures World() == Removed(old(World()), axon)
      ensures Took(old(World()), World(), {axon})
    {
      hide Took;
      TakesOne(World(), axon);
      state := state.(particles := state.particles - {axon});
      touched := touched - {axon};
      if axon in state.edges {
        var (from, to) := state.edges[axon];
        state := state.(edges := state.edges - {axon});
        state := state.(axonsOut := DropAxon(state.axonsOut, from, axon));
        state := state.(axonsIn := DropAxon(state.axonsIn, to, axon));
      }
    }
  }

  lemma NothingRemoved(w: World, plan: seq<Key>)
    ensures AllRemoved(w, plan[..0]) == w
  {
  }

  // There are never more candidates than particles and touched axons.
  lemma CandidateBound(w: World, epoch: u64)
    ensures |Candidates(w, epoch)| <= |w.state.particles| + |w.touched|
  {
    var cs := Candidates(w, epoch);
    if OverBudget(w) {
      SubsetCount(cs.Keys, w.state.particles.Keys);
    } else {
      SubsetCount(cs.Keys, w.touched.Keys);
    }
  }
}
