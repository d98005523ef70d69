// What a batch of events means: the worlds it goes through, why an event is refused, and the
// addresses a preparation has to log for it.
module Batches {
  import opened Wrappers
  import opened Bytes
  import opened Integers
  import opened Records
  import opened Axons
  import opened Graph
  import opened Pruning
  import opened Blocks
  import opened Addresses
  import opened Undos
  import opened Transition

  // An accepted signal: the ordinary path insert, apply_signal_record, finalize_block.
  ghost function Signalled(h: Hashes, w: World, sig: Signal, header: SignalRecord): World
    requires w.state.height + 1 < U64_BOUND
  {
    HeightKept(h, w.state, sig);
    Finalized(h, Recorded(h, Inserted(h, w, sig), header))
  }

  // Everything of that but the pruning and the checkpoint.
  ghost function Written(h: Hashes, w: World, sig: Signal, header: SignalRecord): World
    requires w.state.height + 1 < U64_BOUND
  {
    HeightKept(h, w.state, sig);
    Ticked(h, Recorded(h, Inserted(h, w, sig), header))
  }

  function FocusOr0(s: State, neuron: Key): u64
  {
    if neuron in s.neurons then s.neurons[neuron].focus else 0
  }

  function Topped(h: Hashes, s: State, neuron: Key, token: Key, balance: u64, focus: u64): State
  {
    var n := if neuron in s.neurons then s.neurons[neuron] else NeuronRecord(0, 0, 0, 0);
    s.(balances := s.balances[h.balanceKey(neuron, token) := balance], neurons := s.neurons[neuron := n.(focus := focus)])
  }

  // Why an event is refused, limits of the preparation aside.
  ghost function Refused(h: Hashes, w: World, e: Event): Option<Error>
  {
    match e
    case SignalEvent(sig, header) => Invalid(h, w.state, sig, header)
    case IntentEvent(_) => None
    case LocalCredit(neuron, token, amount, focus) =>
      if BalanceOr0(w.state, h.balanceKey(neuron, token)) + amount >= U64_BOUND then Some(Overflow("balance"))
      else if FocusOr0(w.state, neuron) + focus >= U64_BOUND then Some(Overflow("focus"))
      else None
  }

  ghost function Applied(h: Hashes, w: World, e: Event): World
    requires Refused(h, w, e).None?
  {
    match e
    case SignalEvent(sig, header) => Signalled(h, w, sig, header)
    case IntentEvent(i) => w.(state := w.state.(intents := w.state.intents[h.intentKey(i.neuron, i.h0, i.scopeHash) := i]))
    case LocalCredit(neuron, token, amount, focus) =>
      var balance := BalanceOr0(w.state, h.balanceKey(neuron, token)) + amount;
      Advanced(h, w.(state := Topped(h, w.state, neuron, token, balance, FocusOr0(w.state, neuron) + focus)))
  }

  // The world after a batch, if no event is refused.
  ghost function Batch(h: Hashes, w: World, events: seq<Event>): Option<World>
  {
    if events == [] then Some(w)
    else
      match Batch(h, w, events[..|events| - 1])
      case None => None
      case Some(v) => if Refused(h, v, events[|events| - 1]).None? then Some(Applied(h, v, events[|events| - 1])) else None
  }

  // Some prefix is accepted and the next event refused for this reason.
  ghost predicate RefusedAt(h: Hashes, w: World, events: seq<Event>, i: nat, e: Error)
    requires i < |events|
  {
    var v := Batch(h, w, events[..i]);
    v.Some? && Refused(h, v.value, events[i]) == Some(e)
  }

  // ---------------------------------------------------------------- what a batch names

  ghost function ToSet<T>(xs: seq<T>): set<T>
  {
    set x | x in xs
  }

  function MoveAddresses(mv: BoxMove): (footprint: seq<Address>)
    ensures forall a :: a in footprint ==> !a.Other? && a != Meta
  {
    [Nullifier(mv.nullifier)] + if mv.commitment.Some? then [Commitment(mv.commitment.value.0)] else []
  }

  function LinkAddresses(h: Hashes, l: Link): (footprint: seq<Address>)
    ensures forall a :: a in footprint ==> !a.Other? && a != Meta
  {
    var axon := h.axonId(l.from, l.to);
    [Particle(axon), Particle(l.to), Out(l.from), In(l.to),
     Balance(h.balanceKey(l.from, l.token)), Balance(h.balanceKey(l.to, l.token)), Edge(axon), Touch(axon)]
  }

  function RemovalAddresses(w: World, axon: Key): (footprint: seq<Address>)
    ensures forall a :: a in footprint ==> !a.Other? && a != Meta
  {
    [Particle(axon), Edge(axon), Touch(axon)]
    + if axon in w.state.edges then [Out(w.state.edges[axon].0), In(w.state.edges[axon].1)] else []
  }

  ghost function MovesNames(moves: seq<BoxMove>): set<Address>
  {
    if moves == [] then {} else MovesNames(moves[..|moves| - 1]) + ToSet(MoveAddresses(moves[|moves| - 1]))
  }

  ghost function LinksNames(h: Hashes, links: seq<Link>): set<Address>
  {
    if links == [] then {} else LinksNames(h, links[..|links| - 1]) + ToSet(LinkAddresses(h, links[|links| - 1]))
  }

  ghost function HeadNames(h: Hashes, w: World, sig: Signal, header: SignalRecord): set<Address>
  {
    ToSet([Neuron(sig.neuron), Time(w.state.height), SignalAt(h.signalKey(header.neuron, header.step))])
  }

  // An edge is looked up when its removal's turn comes.
  ghost function RemovalsNames(w: World, plan: seq<Key>): set<Address>
  {
    if plan == [] then {}
    else
      var before := plan[..|plan| - 1];
      RemovalsNames(w, before) + ToSet(RemovalAddresses(AllRemoved(w, before), plan[|plan| - 1]))
  }

  ghost function PruneNames(w: World, epoch: u64): set<Address>
  {
    var plan := Ordered(Candidates(w, epoch));
    RemovalsNames(w, plan[..Cut(w, plan, OverBudget(w), 0)])
  }

  // A pruning cycle has few enough candidates to be planned.
  ghost predicate Plannable(w: World, epoch: u64)
  {
    |Candidates(w, epoch)| <= MAX_KEYS
  }

  ghost predicate EndsEpoch(w: World)
  {
    w.state.height % EPOCH_BLOCKS == 0
  }

  ghost function SignalNames(h: Hashes, w: World, sig: Signal, header: SignalRecord): set<Address>
  {
    HeadNames(h, w, sig, header) + MovesNames(sig.moves) + LinksNames(h, sig.links)
  }

  // The addresses an accepted event logs, a pruning cycle it sets off included.
  ghost function EventNames(h: Hashes, w: World, e: Event): set<Address>
    requires Refused(h, w, e).None?
  {
    match e
    case SignalEvent(sig, header) =>
      var v := Written(h, w, sig, header);
      SignalNames(h, w, sig, header) + if EndsEpoch(v) then PruneNames(v, Epoch(v.state)) else {}
    case IntentEvent(i) => {Intent(h.intentKey(i.neuron, i.h0, i.scopeHash))}
    case LocalCredit(neuron, token, _, _) => {Balance(h.balanceKey(neuron, token)), Neuron(neuron)}
  }

  ghost predicate EventPlannable(h: Hashes, w: World, e: Event)
    requires Refused(h, w, e).None?
  {
    match e
    case SignalEvent(sig, header) =>
      var v := Written(h, w, sig, header);
      EndsEpoch(v) ==> Plannable(v, Epoch(v.state))
    case _ => true
  }

  // The log of a preparation started at start, holding these keys, has room for an event.
  ghost predicate Admits(h: Hashes, start: World, keys: set<Address>, w: World, e: Event)
    requires Refused(h, w, e).None?
  {
    EventPlannable(h, w, e) && WithinLimits(h, start, keys + EventNames(h, w, e))
  }

  // Everything the log of a batch holds: the metadata, then what each accepted event names.
  ghost function BatchNames(h: Hashes, w: World, events: seq<Event>): set<Address>
  {
    if events == [] then {Meta}
    else
      var before, last := events[..|events| - 1], events[|events| - 1];
      BatchNames(h, w, before)
      + match Batch(h, w, before)
        case None => {}
        case Some(v) => if Refused(h, v, last).None? then EventNames(h, v, last) else {}
  }

  // Every pruning cycle of an accepted prefix can be planned.
  ghost predicate BatchPlannable(h: Hashes, w: World, events: seq<Event>)
  {
    forall i :: 0 <= i < |events| ==> PlannableAt(h, w, events, i)
  }

  ghost predicate PlannableAt(h: Hashes, w: World, events: seq<Event>, i: nat)
    requires i < |events|
  {
    var v := Batch(h, w, events[..i]);
    v.Some? && Refused(h, v.value, events[i]).None? ==> EventPlannable(h, v.value, events[i])
  }

  lemma {:induction false} MovesCovered(moves: seq<BoxMove>, footprint: set<Address>)
    requires MovesNames(moves) <= footprint
    ensures CoversMoves(footprint, moves)
  {
    if moves != [] {
      MovesCovered(moves[..|moves| - 1], footprint);
      var last := MoveAddresses(moves[|moves| - 1]);
      assert last[0] in ToSet(last);
      assert |last| > 1 ==> last[1] in ToSet(last);
      forall i | 0 <= i < |moves|
        ensures CoversMove(footprint, moves[i])
      {
        assert i < |moves| - 1 ==> moves[..|moves| - 1][i] == moves[i];
      }
    }
  }

  lemma {:induction false} LinksCovered(h: Hashes, links: seq<Link>, footprint: set<Address>)
    requires LinksNames(h, links) <= footprint
    ensures CoversLinks(footprint, h, links)
  {
    if links != [] {
      LinksCovered(h, links[..|links| - 1], footprint);
      var last := LinkAddresses(h, links[|links| - 1]);
      assert forall k :: 0 <= k < 8 ==> last[k] in ToSet(last);
      assert CoversLink(footprint, h, links[|links| - 1]) by {
        assert last[0] in footprint && last[1] in footprint && last[2] in footprint && last[3] in footprint;
        assert last[4] in footprint && last[5] in footprint && last[6] in footprint && last[7] in footprint;
      }
      forall i | 0 <= i < |links|
        ensures CoversLink(footprint, h, links[i])
      {
        assert i < |links| - 1 ==> links[..|links| - 1][i] == links[i];
      }
    }
  }

  lemma RemovalCovered(w: World, axon: Key, footprint: set<Address>)
    requires ToSet(RemovalAddresses(w, axon)) <= footprint
    ensures CoversRemoval(footprint, w, axon)
  {
    var names := RemovalAddresses(w, axon);
    assert forall k :: 0 <= k < |names| ==> names[k] in ToSet(names);
    assert names[0] in footprint && names[1] in footprint && names[2] in footprint;
    if axon in w.state.edges {
      assert names[3] in footprint && names[4] in footprint;
    }
  }

  lemma SignalCovered(h: Hashes, w: World, sig: Signal, header: SignalRecord, footprint: set<Address>)
    requires SignalNames(h, w, sig, header) <= footprint
    ensures CoversMoves(footprint, sig.moves) && CoversLinks(footprint, h, sig.links)
    ensures Neuron(sig.neuron) in footprint && Time(w.state.height) in footprint
    ensures SignalAt(h.signalKey(header.neuron, header.step)) in footprint
  {
    MovesCovered(sig.moves, footprint);
    LinksCovered(h, sig.links, footprint);
    var head := [Neuron(sig.neuron), Time(w.state.height), SignalAt(h.signalKey(header.neuron, header.step))];
    assert head[0] in ToSet(head) && head[1] in ToSet(head) && head[2] in ToSet(head);
  }

  // Longer plans and longer batches name more.
  lemma {:induction false} RemovalsGrow(w: World, plan: seq<Key>, n: nat, m: nat)
    requires n <= m <= |plan|
    ensures RemovalsNames(w, plan[..n]) <= RemovalsNames(w, plan[..m])
    decreases m
  {
    hide AllRemoved, RemovalAddresses, ToSet;
    if n < m {
      assert plan[..m][..m - 1] == plan[..m - 1];
      RemovalsGrow(w, plan, n, m - 1);
    }
  }

  lemma {:induction false} MovesGrow(moves: seq<BoxMove>, n: nat, m: nat)
    requires n <= m <= |moves|
    ensures MovesNames(moves[..n]) <= MovesNames(moves[..m])
    decreases m
  {
    if n < m {
      assert moves[..m][..m - 1] == moves[..m - 1];
      MovesGrow(moves, n, m - 1);
    }
  }

  lemma {:induction false} LinksGrow(h: Hashes, links: seq<Link>, n: nat, m: nat)
    requires n <= m <= |links|
    ensures LinksNames(h, links[..n]) <= LinksNames(h, links[..m])
    decreases m
  {
    if n < m {
      assert links[..m][..m - 1] == links[..m - 1];
      LinksGrow(h, links, n, m - 1);
    }
  }

  lemma {:induction false} BatchGrows(h: Hashes, w: World, events: seq<Event>, n: nat, m: nat)
    requires n <= m <= |events|
    ensures BatchNames(h, w, events[..n]) <= BatchNames(h, w, events[..m])
    ensures Batch(h, w, events[..n]).None? ==> Batch(h, w, events[..m]).None?
    decreases m
  {
    hide EventNames, Refused, Applied;
    if n < m {
      assert events[..m][..m - 1] == events[..m - 1];
      BatchGrows(h, w, events, n, m - 1);
    }
  }
}
