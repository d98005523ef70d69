// What an event of a batch does, table by table, and what a whole batch adds.
module Outcomes {
  import opened Wrappers
  import opened Bytes
  import opened Integers
  import opened Records
  import opened Graph
  import opened Effects
  import opened Pruning
  import opened Cycles
  import opened Blocks
  import opened Addresses
  import opened Undos
  import opened Transition
  import opened Batches

  // The header speaks of the signal, under a key no header has, and the moves spend what nothing spent,
  // each once.
  ghost predicate Admissible(h: Hashes, s: State, sig: Signal, header: SignalRecord)
  {
    && header.neuron == sig.neuron && header.linkCount == |sig.links| && header.blockHeight == sig.height
    && h.signalKey(header.neuron, header.step) !in s.signals
    && (forall i :: 0 <= i < |sig.moves| ==> sig.moves[i].nullifier !in s.nullifiers)
    && (forall i, j :: 0 <= i < j < |sig.moves| ==> sig.moves[i].nullifier != sig.moves[j].nullifier)
    && (forall i :: 0 <= i < |sig.links| ==> !Saturates(h, s, sig.links, i))
  }

  // The header goes in, the block closes, the checkpoint follows; every hundredth block is pruned.
  ghost predicate Closes(h: Hashes, u: World, v: World, header: SignalRecord)
  {
    var s := u.state.(signals := u.state.signals[h.signalKey(header.neuron, header.step) := header]);
    var t := s.(time := s.time[s.height := h.root(s)], height := v.state.height);
    && v.state.height == s.height + 1
    && v.checkpoint == Checkpoint(h.root(v.state), None, v.state.height) && v.config == u.config
    && if t.height % 100 != 0 then v.state == t && v.touched == u.touched
       else Cycled(u.(state := t), u.(state := v.state, touched := v.touched), t.height / 100)
  }

  ghost predicate SignalDone(h: Hashes, w: World, v: World, sig: Signal, header: SignalRecord)
  {
    Admissible(h, w.state, sig, header) && exists u :: Effected(h, w, u, sig) && Closes(h, u, v, header)
  }

  // Nothing overflows, and the neuron keeps what is not credited.
  ghost predicate CreditDone(h: Hashes, w: World, v: World, neuron: Key, token: Key, amount: u64, focus: u64)
  {
    var s, k := w.state, h.balanceKey(neuron, token);
    var balance := amount + if k in s.balances then s.balances[k] else 0;
    var total := focus + if neuron in s.neurons then s.neurons[neuron].focus else 0;
    && balance <= 0xffff_ffff_ffff_ffff && total <= 0xffff_ffff_ffff_ffff
    && v.state == s.(balances := s.balances[k := balance],
                     neurons := s.neurons[neuron := if neuron in s.neurons then s.neurons[neuron].(focus := total)
                                                    else NeuronRecord(total, 0, 0, 0)])
    && v.checkpoint == Checkpoint(h.root(v.state), None, s.height) && v.touched == w.touched && v.config == w.config
  }

  ghost predicate EventDone(h: Hashes, w: World, v: World, e: Event)
  {
    match e
    case SignalEvent(sig, header) => SignalDone(h, w, v, sig, header)
    case IntentEvent(i) => v == w.(state := w.state.(intents := w.state.intents[h.intentKey(i.neuron, i.h0, i.scopeHash) := i]))
    case LocalCredit(neuron, token, amount, focus) => CreditDone(h, w, v, neuron, token, amount, focus)
  }

  lemma AcceptedAdmissible(h: Hashes, s: State, sig: Signal, header: SignalRecord)
    requires Invalid(h, s, sig, header).None?
    ensures Admissible(h, s, sig, header)
  {
    hide Worked, Saturates;
    SaturatesExactly(h, s, sig.neuron, sig.links);
  }

  lemma FinalizedCloses(h: Hashes, u: World, header: SignalRecord)
    requires u.state.height + 1 < U64_BOUND
    ensures Closes(h, u, Finalized(h, Recorded(h, u, header)), header)
  {
    hide Cycled, Pruned, Took;
    var t := Ticked(h, Recorded(h, u, header));
    if t.state.height % EPOCH_BLOCKS == 0 {
      PrunedIsCycle(t, Epoch(t.state));
      CycleKeeps(t, Pruned(t, Epoch(t.state)), Epoch(t.state));
    }
  }

  lemma SignalledDone(h: Hashes, w: World, sig: Signal, header: SignalRecord)
    requires Invalid(h, w.state, sig, header).None?
    ensures SignalDone(h, w, Signalled(h, w, sig, header), sig, header)
  {
    hide Effected, Closes, Admissible, Inserted, Finalized, Invalid;
    AcceptedAdmissible(h, w.state, sig, header);
    AcceptedInserts(h, w.state, sig, header);
    var u := Inserted(h, w, sig);
    InsertedEffects(h, w, sig);
    InsertedTall(h, w, sig);
    FinalizedCloses(h, u, header);
    SignalledIs(h, w, sig, header);
  }

  lemma InsertedTall(h: Hashes, w: World, sig: Signal)
    ensures Inserted(h, w, sig).state.height == w.state.height
  {
    HeightKept(h, w.state, sig);
  }

  lemma SignalledIs(h: Hashes, w: World, sig: Signal, header: SignalRecord)
    requires w.state.height + 1 < U64_BOUND && Inserted(h, w, sig).state.height == w.state.height
    ensures Signalled(h, w, sig, header) == Finalized(h, Recorded(h, Inserted(h, w, sig), header))
  {
  }

  // An event that is not refused does what its kind says.
  lemma AppliedDone(h: Hashes, w: World, e: Event)
    requires Refused(h, w, e).None?
    ensures EventDone(h, w, Applied(h, w, e), e)
  {
    hide SignalDone, Signalled, Invalid;
    match e
    case SignalEvent(sig, header) => SignalledDone(h, w, sig, header);
    case _ =>
  }

  // ---------------------------------------------------------------- what a batch adds

  function MoveCount(events: seq<Event>): nat
  {
    if events == [] then 0
    else
      var e := events[|events| - 1];
      MoveCount(events[..|events| - 1]) + if e.SignalEvent? then |e.sig.moves| else 0
  }

  function SignalCount(events: seq<Event>): nat
  {
    if events == [] then 0
    else SignalCount(events[..|events| - 1]) + if events[|events| - 1].SignalEvent? then 1 else 0
  }

  // Through these worlds the events go, one after the other.
  ghost predicate Through(h: Hashes, worlds: seq<World>, events: seq<Event>)
  {
    |worlds| == |events| + 1 && forall i :: 0 <= i < |events| ==> EventDone(h, worlds[i], worlds[i + 1], events[i])
  }

  // A batch leads from w to v.
  ghost predicate Leads(h: Hashes, w: World, v: World, events: seq<Event>)
  {
    exists worlds :: Through(h, worlds, events) && |worlds| == |events| + 1 && worlds[0] == w && worlds[|events|] == v
  }

  lemma ThroughPush(h: Hashes, worlds: seq<World>, events: seq<Event>, v: World, e: Event)
    requires Through(h, worlds, events) && EventDone(h, worlds[|events|], v, e)
    ensures Through(h, worlds + [v], events + [e])
  {
    hide EventDone;
  }

  lemma {:induction false} BatchLeads(h: Hashes, w: World, events: seq<Event>)
    requires Batch(h, w, events).Some?
    ensures Leads(h, w, Batch(h, w, events).value, events)
  {
    hide EventDone, Refused, Applied, Through;
    if events == [] {
      StartsHere(h, w);
    } else {
      var n := |events| - 1;
      var v := Batch(h, w, events[..n]).value;
      BatchLeads(h, w, events[..n]);
      var worlds :| Through(h, worlds, events[..n]) && |worlds| == n + 1 && worlds[0] == w && worlds[n] == v;
      AppliedDone(h, v, events[n]);
      ThroughPush(h, worlds, events[..n], Applied(h, v, events[n]), events[n]);
      assert events[..n] + [events[n]] == events;
      var all := worlds + [Applied(h, v, events[n])];
      assert Through(h, all, events) && all[0] == w;
    }
  }

  lemma StartsHere(h: Hashes, w: World)
    ensures Leads(h, w, w, [])
  {
    assert Through(h, [w], []);
  }

  lemma {:induction false} NullifierCount(moves: seq<BoxMove>)
    requires forall i, j :: 0 <= i < j < |moves| ==> moves[i].nullifier != moves[j].nullifier
    ensures |Nullifiers(moves)| == |moves|
  {
    hide Nullifiers;
    if moves == [] {
      NothingTaken();
    } else {
      var n := |moves| - 1;
      NullifierCount(moves[..n]);
      NullifiersPush(moves);
      NotAgain(moves);
    }
  }

  lemma NothingTaken()
    ensures Nullifiers([]) == {}
  {
  }

  lemma NotAgain(moves: seq<BoxMove>)
    requires moves != [] && forall i, j :: 0 <= i < j < |moves| ==> moves[i].nullifier != moves[j].nullifier
    ensures moves[|moves| - 1].nullifier !in Nullifiers(moves[..|moves| - 1])
  {
  }

  // What a done signal leaves in the tables that only grow.
  lemma SignalGrows(h: Hashes, w: World, v: World, sig: Signal, header: SignalRecord)
    requires SignalDone(h, w, v, sig, header)
    ensures v.state.nullifiers == w.state.nullifiers + Nullifiers(sig.moves)
    ensures v.state.signals == w.state.signals[h.signalKey(header.neuron, header.step) := header]
    ensures v.state.height == w.state.height + 1
  {
    hide CommitmentsAfter, ParticlesAfter, BalancesAfter, ListsAfter, EdgesAfter, TouchesAfter, Cycled, Nullifiers;
    var u :| Effected(h, w, u, sig) && Closes(h, u, v, header);
    var s := u.state.(signals := u.state.signals[h.signalKey(header.neuron, header.step) := header]);
    var t := s.(time := s.time[s.height := h.root(s)], height := v.state.height);
    if t.height % 100 == 0 {
      CycleKeeps(u.(state := t), u.(state := v.state, touched := v.touched), t.height / 100);
    }
  }

  lemma EventAdds(h: Hashes, w: World, v: World, e: Event)
    requires EventDone(h, w, v, e)
    ensures |v.state.nullifiers| == |w.state.nullifiers| + if e.SignalEvent? then |e.sig.moves| else 0
    ensures |v.state.signals| == |w.state.signals| + if e.SignalEvent? then 1 else 0
  {
    if e.SignalEvent? {
      SignalGrows(h, w, v, e.sig, e.header);
      FreshCount(h, w, v, e.sig, e.header);
    }
  }

  lemma FreshCount(h: Hashes, w: World, v: World, sig: Signal, header: SignalRecord)
    requires SignalDone(h, w, v, sig, header)
    ensures |w.state.nullifiers + Nullifiers(sig.moves)| == |w.state.nullifiers| + |sig.moves|
    ensures |w.state.signals[h.signalKey(header.neuron, header.step) := header]| == |w.state.signals| + 1
  {
    hide Effected, Closes, Saturates;
    NullifierCount(sig.moves);
    assert w.state.nullifiers !! Nullifiers(sig.moves);
    var k := h.signalKey(header.neuron, header.step);
    assert (w.state.signals[k := header]).Keys == w.state.signals.Keys + {k};
    assert |(w.state.signals[k := header]).Keys| == |w.state.signals[k := header]|;
  }

  // A batch spends as many nullifiers as its signals have moves, and records as many headers as it has
  // signals.
  lemma {:induction false} LeadsAdds(h: Hashes, worlds: seq<World>, events: seq<Event>, n: nat)
    requires Through(h, worlds, events) && n <= |events| && |worlds| == |events| + 1
    ensures |worlds[n].state.nullifiers| == |worlds[0].state.nullifiers| + MoveCount(events[..n])
    ensures |worlds[n].state.signals| == |worlds[0].state.signals| + SignalCount(events[..n])
  {
    hide EventDone;
    if n > 0 {
      LeadsAdds(h, worlds, events, n - 1);
      EventAdds(h, worlds[n - 1], worlds[n], events[n - 1]);
      assert events[..n][..n - 1] == events[..n - 1];
    }
  }

  lemma BatchAdds(h: Hashes, w: World, v: World, events: seq<Event>)
    requires Leads(h, w, v, events)
    ensures |v.state.nullifiers| == |w.state.nullifiers| + MoveCount(events)
    ensures |v.state.signals| == |w.state.signals| + SignalCount(events)
  {
    hide Through, MoveCount, SignalCount;
    var worlds :| Through(h, worlds, events) && |worlds| == |events| + 1 && worlds[0] == w && worlds[|events|] == v;
    LeadsAdds(h, worlds, events, |events|);
    assert events[..|events|] == events;
  }

  lemma OneLeads(h: Hashes, w: World, v: World, e: Event)
    requires Leads(h, w, v, [e])
    ensures EventDone(h, w, v, e)
  {
    hide EventDone;
  }

  lemma OneSignalAdds(h: Hashes, w: World, v: World, events: seq<Event>, sig: Signal, header: SignalRecord)
    requires Leads(h, w, v, events) && events == [SignalEvent(sig, header)]
    ensures header.neuron == sig.neuron && header.linkCount == |sig.links| && header.blockHeight == sig.height
    ensures h.signalKey(header.neuron, header.step) !in w.state.signals
    ensures v.state.signals == w.state.signals[h.signalKey(header.neuron, header.step) := header]
    ensures v.state.nullifiers == w.state.nullifiers + (set i | 0 <= i < |sig.moves| :: sig.moves[i].nullifier)
    ensures |v.state.nullifiers| == |w.state.nullifiers| + |sig.moves| && |v.state.signals| == |w.state.signals| + 1
  {
    hide Leads, Effected, Closes;
    OneLeads(h, w, v, SignalEvent(sig, header));
    SignalGrows(h, w, v, sig, header);
    FreshCount(h, w, v, sig, header);
  }
}
