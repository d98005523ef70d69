// What a published batch leaves: the persisted records, and the state of the ordinary path.
module Publication {
  import opened Wrappers
  import opened Bytes
  import opened Integers
  import opened Records
  import opened Axons
  import opened Graph
  import opened Blocks
  import opened Addresses
  import opened Adjacency
  import opened Undos
  import opened Transition
  import opened Batches
  import opened Preparation
  import Outcomes
  import Effects
  import Cycles

  // ---------------------------------------------------------------- the records of a world

  ghost function GraphAddresses(s: State): set<Address>
  {
    (set k | k in s.particles :: Particle(k)) + (set k | k in s.axonsOut :: Out(k)) + (set k | k in s.axonsIn :: In(k))
    + (set k | k in s.neurons :: Neuron(k)) + (set k | k in s.edges :: Edge(k))
  }

  ghost function LedgerAddresses(s: State): set<Address>
  {
    (set t | t in s.time :: Time(t)) + (set k | k in s.signals :: SignalAt(k)) + (set k | k in s.commitments :: Commitment(k))
    + (set k | k in s.nullifiers :: Nullifier(k)) + (set k | k in s.balances :: Balance(k)) + (set k | k in s.intents :: Intent(k))
  }

  ghost function Present(w: World): set<Address>
  {
    {Meta} + GraphAddresses(w.state) + LedgerAddresses(w.state)
    + (set k | k in w.touched :: Touch(k)) + (set p | p in w.state.fixed.records :: Other(p.0, p.1))
  }

  lemma InGraph(s: State, a: Address)
    ensures a in GraphAddresses(s) <==>
      match a
      case Particle(k) => k in s.particles
      case Out(k) => k in s.axonsOut
      case In(k) => k in s.axonsIn
      case Neuron(k) => k in s.neurons
      case Edge(k) => k in s.edges
      case _ => false
  {
  }

  lemma InLedger(s: State, a: Address)
    ensures a in LedgerAddresses(s) <==>
      match a
      case Time(t) => t in s.time
      case SignalAt(k) => k in s.signals
      case Commitment(k) => k in s.commitments
      case Nullifier(k) => k in s.nullifiers
      case Balance(k) => k in s.balances
      case Intent(k) => k in s.intents
      case _ => false
  {
  }

  lemma InFixed(w: World, d: FixedDomain, k: Key)
    ensures Other(d, k) in (set p | p in w.state.fixed.records :: Other(p.0, p.1)) <==> (d, k) in w.state.fixed.records
  {
    if (d, k) in w.state.fixed.records {
      assert Other(d, k) == Other((d, k).0, (d, k).1);
    }
  }

  // The present addresses are the ones with a record.
  lemma PresentReads(h: Hashes, w: World, a: Address)
    ensures a in Present(w) <==> Read(h, w, a).Some?
  {
    hide GraphAddresses, LedgerAddresses, Metadata;
    InGraph(w.state, a);
    InLedger(w.state, a);
    if a.Other? {
      InFixed(w, a.d, a.k);
    }
  }

  lemma KeysInjective()
    ensures forall a, b :: KeyOf(a) == KeyOf(b) ==> a == b
  {
    forall a, b | KeyOf(a) == KeyOf(b)
      ensures a == b
    {
      KeyOfInjective(a, b);
    }
  }

  // The record stream: every present record under its persisted key.
  ghost function RecordsOf(h: Hashes, w: World): map<seq<byte>, seq<byte>>
  {
    KeysInjective();
    forall a | a in Present(w)
      ensures Read(h, w, a).Some?
    {
      PresentReads(h, w, a);
    }
    map a | a in Present(w) :: KeyOf(a) := Read(h, w, a).value
  }

  lemma RecordAt(h: Hashes, w: World, a: Address)
    ensures Lookup(RecordsOf(h, w), KeyOf(a)) == Read(h, w, a)
  {
    hide Read, KeyOf, Present;
    KeysInjective();
    PresentReads(h, w, a);
    if KeyOf(a) in RecordsOf(h, w) {
      var b :| b in Present(w) && KeyOf(b) == KeyOf(a);
    }
  }

  // ---------------------------------------------------------------- patching

  function Patch(m: map<seq<byte>, seq<byte>>, changes: seq<RecordChange>): map<seq<byte>, seq<byte>>
  {
    if changes == [] then m
    else
      var c := changes[|changes| - 1];
      SetOrRemove(Patch(m, changes[..|changes| - 1]), c.key, c.value)
  }

  lemma {:induction false} PatchMisses(m: map<seq<byte>, seq<byte>>, changes: seq<RecordChange>, key: seq<byte>)
    requires forall i :: 0 <= i < |changes| ==> changes[i].key != key
    ensures Lookup(Patch(m, changes), key) == Lookup(m, key)
  {
    if changes != [] {
      PatchMisses(m, changes[..|changes| - 1], key);
    }
  }

  lemma {:induction false} PatchHits(m: map<seq<byte>, seq<byte>>, changes: seq<RecordChange>, i: nat)
    requires AscendingKeys(changes) && i < |changes|
    ensures Lookup(Patch(m, changes), changes[i].key) == changes[i].value
  {
    var last := |changes| - 1;
    if i < last {
      PatchHits(m, changes[..last], i);
      LtTotal(changes[i].key, changes[last].key);
    }
  }

  // The starting records, patched with the write set, are the records of the candidate.
  lemma PatchedRecords(h: Hashes, start: World, cur: World, changes: seq<RecordChange>)
    requires ExactChanges(h, start, cur, changes)
    ensures Patch(RecordsOf(h, start), changes) == RecordsOf(h, cur)
  {
    hide Patch, RecordsOf, ExactChanges, KeyOf, Read;
    var before, after := RecordsOf(h, start), RecordsOf(h, cur);
    forall key
      ensures Lookup(Patch(before, changes), key) == Lookup(after, key)
    {
      PatchedAt(h, start, cur, changes, key);
    }
    forall key
      ensures key in Patch(before, changes) <==> key in after
      ensures key in after ==> Patch(before, changes)[key] == after[key]
    {
      assert Lookup(Patch(before, changes), key) == Lookup(after, key);
    }
  }

  lemma PatchedAt(h: Hashes, start: World, cur: World, changes: seq<RecordChange>, key: seq<byte>)
    requires ExactChanges(h, start, cur, changes)
    ensures Lookup(Patch(RecordsOf(h, start), changes), key) == Lookup(RecordsOf(h, cur), key)
  {
    hide Patch, RecordsOf, KeyOf, Read, Lt;
    if a :| KeyOf(a) == key {
      RecordAt(h, start, a);
      RecordAt(h, cur, a);
      if Changed(h, start, cur, a) {
        var i :| 0 <= i < |changes| && changes[i].key == KeyOf(a);
        ChangeNames(h, start, cur, changes[i], a);
        PatchHits(RecordsOf(h, start), changes, i);
      } else {
        forall i | 0 <= i < |changes|
          ensures changes[i].key != key
        {
          if changes[i].key == key {
            ChangeNames(h, start, cur, changes[i], a);
          }
        }
        PatchMisses(RecordsOf(h, start), changes, key);
      }
    } else {
      forall i | 0 <= i < |changes|
        ensures changes[i].key != key
      {
        assert Genuine(h, start, cur, changes[i]);
      }
      PatchMisses(RecordsOf(h, start), changes, key);
      Unnamed(h, start, key);
      Unnamed(h, cur, key);
    }
  }

  lemma Unnamed(h: Hashes, w: World, key: seq<byte>)
    requires forall a :: KeyOf(a) != key
    ensures key !in RecordsOf(h, w)
  {
    hide KeyOf, Present, Read;
    KeysInjective();
    if key in RecordsOf(h, w) {
      var b :| b in Present(w) && KeyOf(b) == key;
    }
  }

  lemma ChangeNames(h: Hashes, start: World, cur: World, c: RecordChange, a: Address)
    requires Genuine(h, start, cur, c) && c.key == KeyOf(a)
    ensures c.value == Read(h, cur, a) && Changed(h, start, cur, a)
  {
    hide KeyOf, Read;
    var b :| IsChange(h, start, cur, c, b);
    KeyOfInjective(a, b);
  }

  // ---------------------------------------------------------------- the ordinary path

  // A batch of one signal is the ordinary path, and is refused just when validation refuses.
  lemma OneSignal(h: Hashes, w: World, sig: Signal, header: SignalRecord)
    ensures Batch(h, w, [SignalEvent(sig, header)]).Some? <==> Invalid(h, w.state, sig, header).None?
    ensures Invalid(h, w.state, sig, header).None? ==>
              Batch(h, w, [SignalEvent(sig, header)]) == Some(Signalled(h, w, sig, header))
  {
    hide Signalled, Invalid;
    var events := [SignalEvent(sig, header)];
    EmptyBatch(h, w, events);
    BatchStep(h, w, events, 0);
    assert events[..1] == events;
  }

  // insert; apply_signal_record; finalize_block
  method OrdinaryBlock(bbg: Bbg, sig: Signal, header: SignalRecord)
    requires Invalid(bbg.h, bbg.state, sig, header).None?
    modifies bbg
    ensures Invalid(bbg.h, old(bbg.state), sig, header).None? && old(bbg.state.height) + 1 < U64_BOUND
    ensures bbg.World() == Signalled(bbg.h, old(bbg.World()), sig, header)
  {
    hide Invalid, Inserted, NoneSaturates, AllMoved, Finalized, Effects.Effected, Cycles.Cycled;
    AcceptedInserts(bbg.h, bbg.state, sig, header);
    InsertedHeight(bbg.h, bbg.World(), sig);
    var ok := bbg.Insert(sig);
    bbg.ApplySignalRecord(header);
    bbg.FinalizeBlock();
  }

  // Two equal graphs, one through a published preparation and one through the ordinary path, end
  // equal; and the records of the first are its old records patched with the published changes.
  method PublishedIsOrdinary(prepared: Bbg, ordinary: Bbg, sig: Signal, header: SignalRecord) returns (r: Result<seq<RecordChange>, Error>)
    requires prepared != ordinary && prepared.h == ordinary.h && prepared.World() == ordinary.World()
    requires ListsOk(prepared.state.axonsOut) && ListsOk(prepared.state.axonsIn)
    modifies prepared, ordinary
    ensures prepared.World() == ordinary.World()
    ensures r.Ok? <==> Preparable(prepared.h, old(prepared.World()), [SignalEvent(sig, header)])
    ensures r.Err? ==> prepared.World() == old(prepared.World())
    ensures r.Ok? ==> Patch(RecordsOf(prepared.h, old(prepared.World())), r.value) == RecordsOf(prepared.h, prepared.World())
  {
    hide Outcomes.Leads, Outcomes.MoveCount, Outcomes.SignalCount, Prepared.Active, Logged, Batch, Invalid, ExactChanges, Snapshots, ListsOk, Patch, RecordsOf, Signalled, Preparable;
    ghost var w := prepared.World();
    var batch := PrepareBatch(prepared, [SignalEvent(sig, header)]);
    if batch.Err? {
      return Err(batch.error);
    }
    OneSignal(prepared.h, w, sig, header);
    var p := batch.value;
    PatchedRecords(prepared.h, w, prepared.World(), p.changes);
    r := Ok(p.changes);
    p.Publish();
    OrdinaryBlock(ordinary, sig, header);
  }
}
