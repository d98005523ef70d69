// A prepared batch: the candidate state of a borrowed Bbg, its undo log and its write set.
module Preparation {
  import opened Wrappers
  import opened Bytes
  import opened Integers
  import opened Records
  import opened Axons
  import opened Graph
  import opened Sorting
  import opened Pruning
  import opened Blocks
  import opened Addresses
  import opened Adjacency
  import opened Undos
  import opened Transition
  import opened Batches
  import opened Outcomes
  import opened Cycles
  import Effects

  datatype RecordChange = RecordChange(key: seq<byte>, value: Option<seq<byte>>)
  datatype Snapshot = Snapshot(height: u64, root: Key)

  // ---------------------------------------------------------------- the write set

  ghost predicate AscendingKeys(changes: seq<RecordChange>)
  {
    forall i, j :: 0 <= i < j < |changes| ==> Lt(changes[i].key, changes[j].key)
  }

  ghost predicate Changed(h: Hashes, start: World, cur: World, a: Address)
  {
    Read(h, start, a) != Read(h, cur, a)
  }

  ghost predicate Names(changes: seq<RecordChange>, a: Address)
  {
    exists i :: 0 <= i < |changes| && changes[i].key == KeyOf(a)
  }

  ghost predicate IsChange(h: Hashes, start: World, cur: World, c: RecordChange, a: Address)
  {
    c == RecordChange(KeyOf(a), Read(h, cur, a)) && Changed(h, start, cur, a)
  }

  ghost predicate Genuine(h: Hashes, start: World, cur: World, c: RecordChange)
  {
    exists a :: IsChange(h, start, cur, c, a)
  }

  ghost predicate OnlyChanges(h: Hashes, start: World, cur: World, changes: seq<RecordChange>)
  {
    forall i :: 0 <= i < |changes| ==> Genuine(h, start, cur, changes[i])
  }

  ghost predicate AllChanges(h: Hashes, start: World, cur: World, changes: seq<RecordChange>)
  {
    forall a :: Changed(h, start, cur, a) ==> Names(changes, a)
  }

  // The changes are the addresses whose records differ, each with its new record, in key order.
  ghost predicate ExactChanges(h: Hashes, start: World, cur: World, changes: seq<RecordChange>)
  {
    AscendingKeys(changes) && OnlyChanges(h, start, cur, changes) && AllChanges(h, start, cur, changes)
  }

  // What the state of an AxonIndex guarantees: lists that restore exactly; and no checkpoint proof.
  ghost predicate Grounded(w: World)
  {
    ListsOk(w.state.axonsOut) && ListsOk(w.state.axonsIn) && w.checkpoint.proof == None
  }

  // A step confined to logged addresses keeps the log.
  lemma StillLogged(h: Hashes, start: World, w: World, v: World, values: map<Address, Option<seq<byte>>>)
    requires Logged(h, start, w, values) && SameOutside(w, v, values.Keys)
    ensures Logged(h, start, v, values)
  {
    SameOutsideTrans(start, w, v, values.Keys);
  }

  lemma InsertedHeight(h: Hashes, w: World, sig: Signal)
    ensures Inserted(h, w, sig).state.height == w.state.height
  {
    HeightKept(h, w.state, sig);
  }

  lemma WrittenFrame(h: Hashes, w: World, sig: Signal, header: SignalRecord, footprint: set<Address>)
    requires w.state.height + 1 < U64_BOUND
    requires CoversMoves(footprint, sig.moves) && CoversLinks(footprint, h, sig.links)
    requires Neuron(sig.neuron) in footprint && Time(w.state.height) in footprint
    requires SignalAt(h.signalKey(header.neuron, header.step)) in footprint
    ensures SameOutside(w, Written(h, w, sig, header), footprint)
  {
    hide SameOutside, Inserted, CoversMoves, CoversLinks, Ticked;
    var w1 := Inserted(h, w, sig);
    var w2 := Recorded(h, w1, header);
    InsertedHeight(h, w, sig);
    InsertFrame(h, w, sig, footprint);
    RecordFrame(h, w1, header, footprint);
    TickFrame(h, w2, footprint);
    SameOutsideTrans(w, w1, w2, footprint);
    SameOutsideTrans(w, w2, Ticked(h, w2), footprint);
  }

  lemma CreditFrame(h: Hashes, w: World, neuron: Key, token: Key, balance: u64, focus: u64, footprint: set<Address>)
    requires Balance(h.balanceKey(neuron, token)) in footprint && Neuron(neuron) in footprint
    ensures SameOutside(w, w.(state := Topped(h, w.state, neuron, token, balance, focus)), footprint)
  {
    hide SameOutside;
    var t := Topped(h, w.state, neuron, token, balance, focus);
    var v := w.(state := w.state.(balances := t.balances));
    WriteBalance(w, h.balanceKey(neuron, token), t.balances, footprint);
    WriteNeuron(v, neuron, t.neurons, footprint);
    SameOutsideTrans(w, v, w.(state := t), footprint);
  }

  lemma LoggedValue(h: Hashes, start: World, cur: World, values: map<Address, Option<seq<byte>>>, a: Address)
    requires Logged(h, start, cur, values) && a in values
    ensures values[a] == Read(h, start, a) && !a.Other?
    ensures Read(h, start, a).Some? ==> |Read(h, start, a).value| <= MAX_BYTES
  {
    TooLongExact(h, start, a);
  }

  ghost function ChangedAmong(h: Hashes, start: World, cur: World, keys: set<Address>): set<Address>
  {
    set a | a in keys && Changed(h, start, cur, a)
  }

  // The new records and their keys fit the bound on a write set.
  ghost predicate Writable(h: Hashes, start: World, cur: World, keys: set<Address>)
  {
    Total(h, cur, ChangedAmong(h, start, cur, keys)) <= MAX_BYTES
  }

  // What reading one more address adds to the write set.
  lemma CountChange(h: Hashes, start: World, cur: World, keys: set<Address>, todo: set<Address>, a: Address)
    requires a in todo && todo <= keys
    ensures var before, after := ChangedAmong(h, start, cur, keys - todo), ChangedAmong(h, start, cur, keys - (todo - {a}));
            && Total(h, cur, after) == Total(h, cur, before) + (if Changed(h, start, cur, a) then Size(a, Read(h, cur, a)) else 0)
            && Total(h, cur, after) <= Total(h, cur, ChangedAmong(h, start, cur, keys))
    ensures Read(h, cur, a).Some? ==> Size(a, Read(h, cur, a)) >= |Read(h, cur, a).value|
  {
    hide Read, Total, KeyOf;
    var before, after := ChangedAmong(h, start, cur, keys - todo), ChangedAmong(h, start, cur, keys - (todo - {a}));
    TotalMonotone(h, cur, after, ChangedAmong(h, start, cur, keys));
    if Changed(h, start, cur, a) {
      TotalAt(h, cur, after, a);
      assert after - {a} == before;
    } else {
      assert after == before;
    }
  }

  // What is not logged, the metadata aside, has not changed.
  lemma UnloggedUnchanged(h: Hashes, start: World, cur: World, values: map<Address, Option<seq<byte>>>, a: Address)
    requires Logged(h, start, cur, values) && Meta in values && a !in values
    ensures !Changed(h, start, cur, a)
  {
  }

  // Addresses found in key order, with their changes.
  ghost predicate Found(h: Hashes, start: World, cur: World, changes: seq<RecordChange>, found: seq<Address>)
  {
    && |found| == |changes| && AscendingKeys(changes)
    && forall i :: 0 <= i < |changes| ==> IsChange(h, start, cur, changes[i], found[i])
  }

  lemma FindNext(h: Hashes, start: World, cur: World, changes: seq<RecordChange>, found: seq<Address>, c: RecordChange, a: Address)
    requires Found(h, start, cur, changes, found) && IsChange(h, start, cur, c, a)
    requires forall i :: 0 <= i < |changes| ==> Lt(changes[i].key, c.key)
    ensures Found(h, start, cur, changes + [c], found + [a])
  {
    hide IsChange, Lt;
  }

  lemma AllFound(h: Hashes, start: World, cur: World, changes: seq<RecordChange>, found: seq<Address>)
    requires Found(h, start, cur, changes, found)
    requires forall a :: Changed(h, start, cur, a) ==> a in found
    ensures ExactChanges(h, start, cur, changes)
  {
    hide Read, Lt, KeyOf, Changed;
    forall i | 0 <= i < |changes|
      ensures Genuine(h, start, cur, changes[i])
    {
      assert IsChange(h, start, cur, changes[i], found[i]);
    }
    forall a | Changed(h, start, cur, a)
      ensures Names(changes, a)
    {
      var i :| 0 <= i < |found| && found[i] == a;
      assert IsChange(h, start, cur, changes[i], found[i]);
    }
  }

  lemma NothingFound(h: Hashes, start: World, cur: World)
    ensures Found(h, start, cur, [], []) && Total(h, cur, ChangedAmong(h, start, cur, {})) == 0
  {
    assert ChangedAmong(h, start, cur, {}) == {};
  }

  // Addresses in the byte order of their persisted keys.
  function ByKey(): (Address, Address) -> bool
  {
    (a: Address, b: Address) => Lt(KeyOf(a), KeyOf(b))
  }

  lemma ByKeyTotal()
    ensures StrictTotal(ByKey())
  {
    hide KeyOf, Lt;
    forall a: Address, b: Address
      ensures ByKey()(a, b) ==> !ByKey()(b, a)
      ensures a == b || ByKey()(a, b) || ByKey()(b, a)
    {
      KeysOrdered(a, b);
    }
    forall a: Address, b: Address, c: Address | ByKey()(a, b) && ByKey()(b, c)
      ensures ByKey()(a, c)
    {
      LtTrans(KeyOf(a), KeyOf(b), KeyOf(c));
    }
  }

  lemma KeysOrdered(a: Address, b: Address)
    ensures Lt(KeyOf(a), KeyOf(b)) ==> !Lt(KeyOf(b), KeyOf(a))
    ensures a == b || Lt(KeyOf(a), KeyOf(b)) || Lt(KeyOf(b), KeyOf(a))
  {
    hide KeyOf, Lt;
    LtTotal(KeyOf(a), KeyOf(b));
    if KeyOf(a) == KeyOf(b) {
      KeyOfInjective(a, b);
    }
  }

  lemma NameNext(w: World, plan: seq<Key>, n: nat)
    requires n < |plan|
    ensures RemovalsNames(w, plan[..n + 1]) == RemovalsNames(w, plan[..n]) + ToSet(RemovalAddresses(AllRemoved(w, plan[..n]), plan[n]))
  {
    assert plan[..n + 1][..n] == plan[..n];
  }

  lemma NothingNamed(w: World, plan: seq<Key>)
    ensures RemovalsNames(w, plan[..0]) == {}
  {
  }

  // A signal ends as its writing, the pruning it sets off, and the checkpoint.
  lemma SignalEnds(h: Hashes, w: World, sig: Signal, header: SignalRecord)
    requires w.state.height + 1 < U64_BOUND
    ensures var v := Written(h, w, sig, header);
            Signalled(h, w, sig, header) == Advanced(h, if EndsEpoch(v) then Pruned(v, Epoch(v.state)) else v)
  {
    hide Inserted, Recorded, Pruned;
    HeightKept(h, w.state, sig);
  }

  class Prepared {
    const bbg: Bbg
    var undo: Undo?
    var changes: seq<RecordChange>
    var snapshots: seq<Snapshot>
    ghost const start: World

    // The log covers everything that changed since the start, the metadata included.
    ghost predicate Active()
      reads this`undo, undo, bbg
    {
      && undo != null && Logged(bbg.h, start, bbg.World(), undo.values) && Meta in undo.values
      && Grounded(start) && bbg.checkpoint.proof == None
      && undo.height == start.state.height && undo.checkpointRoot == start.checkpoint.root && undo.checkpointHeight == start.checkpoint.height
    }

    constructor (bbg: Bbg, undo: Undo)
      ensures this.bbg == bbg && this.undo == undo && this.start == bbg.World() && changes == [] && snapshots == []
    {
      this.bbg, this.undo, this.start := bbg, undo, bbg.World();
      changes, snapshots := [], [];
    }

    // A log that no refused capture has spoiled.
    ghost predicate Open()
      reads this`undo, undo, bbg
    {
      Active() && undo.Sized(bbg.h, start)
    }

    // What an event of the batch does to an open preparation at w holding these keys.
    ghost predicate Outcome(e: Event, w: World, keys: set<Address>, r: Result<(), Error>)
      reads this`undo, undo, bbg
    {
      && (r.Ok? <==> Refused(bbg.h, w, e).None? && Admits(bbg.h, start, keys, w, e))
      && (r.Ok? ==> Active() && Open() && bbg.World() == Applied(bbg.h, w, e) && undo.values.Keys == keys + EventNames(bbg.h, w, e)
                    && EventDone(bbg.h, w, bbg.World(), e))
      && (r.Err? ==> Refused(bbg.h, w, e) == Some(r.error) || (Refused(bbg.h, w, e).None? && r.error.Limit?))
    }

    method Capture(a: Address) returns (r: Result<(), Error>)
      requires Open() && !a.Other?
      modifies undo
      ensures Active() && (r.Ok? <==> WithinLimits(bbg.h, start, old(undo.values.Keys) + {a}))
      ensures r.Ok? ==> Open() && undo.values.Keys == old(undo.values.Keys) + {a}
      ensures r.Err? ==> r.error.Limit?
    {
      hide Logged, Grounded, WithinLimits;
      r := undo.Capture(bbg, a, start);
    }

    // Captures fit all together or not at all.
    method CaptureAll(footprint: seq<Address>) returns (r: Result<(), Error>)
      requires Open() && forall a :: a in footprint ==> !a.Other?
      modifies undo
      ensures Active() && (r.Ok? <==> WithinLimits(bbg.h, start, old(undo.values.Keys) + ToSet(footprint)))
      ensures r.Ok? ==> Open() && undo.values.Keys == old(undo.values.Keys) + ToSet(footprint)
      ensures r.Err? ==> r.error.Limit?
    {
      hide Logged, Grounded, WithinLimits, Undo.Sized;
      ghost var keys := undo.values.Keys;
      var i := 0;
      while i < |footprint|
        invariant 0 <= i <= |footprint| && Open() && undo == old(undo)
        invariant undo.values.Keys == keys + ToSet(footprint[..i])
      {
        var c := Capture(footprint[i]);
        assert keys + ToSet(footprint[..i + 1]) == keys + ToSet(footprint[..i]) + {footprint[i]};
        if c.Err? {
          StillOver(keys + ToSet(footprint[..i + 1]), keys + ToSet(footprint));
          return c;
        }
        i := i + 1;
      }
      assert footprint[..i] == footprint;
      WithinNow();
      r := Ok(());
    }

    // What broke a limit breaks it with more besides.
    lemma StillOver(less: set<Address>, more: set<Address>)
      requires less <= more && !WithinLimits(bbg.h, start, less)
      ensures !WithinLimits(bbg.h, start, more)
    {
      if WithinLimits(bbg.h, start, more) {
        WithinMonotone(bbg.h, start, less, more);
      }
    }

    lemma WithinNow()
      requires Open()
      ensures WithinLimits(bbg.h, start, undo.values.Keys)
    {
      hide Logged, WithinLimits;
    }

    method CaptureMoves(moves: seq<BoxMove>) returns (r: Result<(), Error>)
      requires Open()
      modifies undo
      ensures Active() && (r.Ok? <==> WithinLimits(bbg.h, start, old(undo.values.Keys) + MovesNames(moves)))
      ensures r.Ok? ==> Open() && undo.values.Keys == old(undo.values.Keys) + MovesNames(moves)
      ensures r.Err? ==> r.error.Limit?
    {
      hide Logged, Grounded, WithinLimits, Undo.Sized, ToSet;
      ghost var keys := undo.values.Keys;
      var i := 0;
      while i < |moves|
        invariant 0 <= i <= |moves| && Open() && undo == old(undo)
        invariant undo.values.Keys == keys + MovesNames(moves[..i])
      {
        assert moves[..i + 1][..i] == moves[..i];
        var c := CaptureAll(MoveAddresses(moves[i]));
        assert keys + MovesNames(moves[..i + 1]) == keys + MovesNames(moves[..i]) + ToSet(MoveAddresses(moves[i]));
        if c.Err? {
          MovesGrow(moves, i + 1, |moves|);
          assert moves[..|moves|] == moves;
          StillOver(keys + MovesNames(moves[..i + 1]), keys + MovesNames(moves));
          return c;
        }
        i := i + 1;
      }
      assert moves[..i] == moves;
      WithinNow();
      r := Ok(());
    }

    method CaptureLinks(links: seq<Link>) returns (r: Result<(), Error>)
      requires Open()
      modifies undo
      ensures Active() && (r.Ok? <==> WithinLimits(bbg.h, start, old(undo.values.Keys) + LinksNames(bbg.h, links)))
      ensures r.Ok? ==> Open() && undo.values.Keys == old(undo.values.Keys) + LinksNames(bbg.h, links)
      ensures r.Err? ==> r.error.Limit?
    {
      hide Logged, Grounded, WithinLimits, Undo.Sized, ToSet, LinkAddresses;
      ghost var keys := undo.values.Keys;
      var i := 0;
      while i < |links|
        invariant 0 <= i <= |links| && Open() && undo == old(undo)
        invariant undo.values.Keys == keys + LinksNames(bbg.h, links[..i])
      {
        assert links[..i + 1][..i] == links[..i];
        var c := CaptureAll(LinkAddresses(bbg.h, links[i]));
        assert keys + LinksNames(bbg.h, links[..i + 1]) == keys + LinksNames(bbg.h, links[..i]) + ToSet(LinkAddresses(bbg.h, links[i]));
        if c.Err? {
          LinksGrow(bbg.h, links, i + 1, |links|);
          assert links[..|links|] == links;
          StillOver(keys + LinksNames(bbg.h, links[..i + 1]), keys + LinksNames(bbg.h, links));
          return c;
        }
        i := i + 1;
      }
      assert links[..i] == links;
      WithinNow();
      r := Ok(());
    }

    method CaptureRemoval(axon: Key) returns (r: Result<(), Error>)
      requires Open()
      modifies undo
      ensures Active() && (r.Ok? <==> WithinLimits(bbg.h, start, old(undo.values.Keys) + ToSet(RemovalAddresses(bbg.World(), axon))))
      ensures r.Ok? ==> Open() && undo.values.Keys == old(undo.values.Keys) + ToSet(RemovalAddresses(bbg.World(), axon))
      ensures r.Err? ==> r.error.Limit?
    {
      hide Logged, Grounded, WithinLimits, Undo.Sized;
      r := CaptureAll(RemovalAddresses(bbg.World(), axon));
    }

    // Everything a signal names, captured before anything is written.
    method CaptureSignal(sig: Signal, header: SignalRecord) returns (r: Result<(), Error>)
      requires Open()
      modifies undo
      ensures Active() && (r.Ok? <==> WithinLimits(bbg.h, start, old(undo.values.Keys) + SignalNames(bbg.h, bbg.World(), sig, header)))
      ensures r.Ok? ==> Open() && undo.values.Keys == old(undo.values.Keys) + SignalNames(bbg.h, bbg.World(), sig, header)
      ensures r.Err? ==> r.error.Limit?
    {
      hide Logged, Grounded, WithinLimits, Undo.Sized, ToSet, MovesNames, LinksNames;
      ghost var keys, w := undo.values.Keys, bbg.World();
      ghost var head := HeadNames(bbg.h, w, sig, header);
      ghost var all := keys + SignalNames(bbg.h, w, sig, header);
      r := CaptureAll([Neuron(sig.neuron), Time(bbg.state.height), SignalAt(bbg.h.signalKey(header.neuron, header.step))]);
      if r.Err? {
        StillOver(keys + head, all);
        return;
      }
      r := CaptureMoves(sig.moves);
      if r.Err? {
        StillOver(keys + head + MovesNames(sig.moves), all);
        return;
      }
      r := CaptureLinks(sig.links);
      assert all == keys + head + MovesNames(sig.moves) + LinksNames(bbg.h, sig.links);
    }

    // One signal: validate, capture, then the ordinary path. It is refused for what validation
    // finds, or because its addresses and those of the pruning it sets off do not fit.
    method Signal(sig: Signal, header: SignalRecord) returns (r: Result<(), Error>)
      requires Open()
      modifies undo, bbg
      ensures Active() && Outcome(SignalEvent(sig, header), old(bbg.World()), old(undo.values.Keys), r)
    {
      hide Cycled, Saturates, Effects.Nullifiers, EventDone, Logged, Grounded, Invalid, Inserted, Recorded, Pruned, WithinLimits, Undo.Sized, SignalNames, PruneNames, Plannable, Written;
      ghost var h, w, keys := bbg.h, bbg.World(), undo.values.Keys;
      var invalid := Validate(bbg, sig, header);
      if invalid.Some? {
        return Err(invalid.value);
      }
      ghost var e := SignalEvent(sig, header);
      AppliedDone(h, w, e);
      r := CaptureSignal(sig, header);
      if r.Err? {
        StillOver(keys + SignalNames(h, w, sig, header), keys + EventNames(h, w, e));
        return;
      }
      SignalCovered(h, w, sig, header, undo.values.Keys);
      AcceptedInserts(h, bbg.state, sig, header);
      WriteSignal(sig, header);
      ghost var v := bbg.World();
      SignalEnds(h, w, sig, header);
      if bbg.state.height % EPOCH_BLOCKS == 0 {
        r := Prune(bbg.state.height / EPOCH_BLOCKS);
        assert keys + SignalNames(h, w, sig, header) + PruneNames(v, Epoch(v.state)) == keys + EventNames(h, w, e);
        if r.Err? {
          return;
        }
      } else {
        assert keys + SignalNames(h, w, sig, header) == keys + EventNames(h, w, e);
      }
      Advance();
    }

    // Insert the signal and its header, then the time row and the next height.
    method WriteSignal(sig: Signal, header: SignalRecord)
      requires Active() && Invalid(bbg.h, bbg.state, sig, header).None? && bbg.state.height + 1 < U64_BOUND
      requires CoversMoves(undo.values.Keys, sig.moves) && CoversLinks(undo.values.Keys, bbg.h, sig.links)
      requires Neuron(sig.neuron) in undo.values && Time(bbg.state.height) in undo.values
      requires SignalAt(bbg.h.signalKey(header.neuron, header.step)) in undo.values
      modifies bbg`state, bbg`touched
      ensures Active() && bbg.World() == Written(bbg.h, old(bbg.World()), sig, header)
    {
      hide Effects.Effected, Logged, Grounded, Invalid, Inserted, NoneSaturates, AllMoved, SameOutside, CoversMoves, CoversLinks, Undo.Sized;
      ghost var h, w := bbg.h, bbg.World();
      WrittenFrame(h, w, sig, header, undo.values.Keys);
      StillLogged(h, start, w, Written(h, w, sig, header), undo.values);
      AcceptedInserts(h, bbg.state, sig, header);
      InsertedHeight(h, w, sig);
      var ok := bbg.Insert(sig);
      bbg.ApplySignalRecord(header);
      bbg.Tick();
    }

    // One bounded pruning cycle. It is refused for too many candidates, or because what its
    // removals name does not fit the log.
    method Prune(epoch: u64) returns (r: Result<(), Error>)
      requires Open()
      modifies undo, bbg`state, bbg`touched
      ensures Active()
      ensures r.Ok? <==> Plannable(old(bbg.World()), epoch) && WithinLimits(bbg.h, start, old(undo.values.Keys) + PruneNames(old(bbg.World()), epoch))
      ensures r.Ok? ==> Open() && bbg.World() == Pruned(old(bbg.World()), epoch)
                        && undo.values.Keys == old(undo.values.Keys) + PruneNames(old(bbg.World()), epoch)
      ensures r.Ok? ==> Cycled(old(bbg.World()), bbg.World(), epoch)
      ensures r.Err? ==> r.error.Limit?
    {
      hide Cycled, Planned, Occupied, OverBudget, Pruned, Logged, Grounded, Estimate, Candidates, Ordered, RankFloor, Cut, StopsAt, AllRemoved, Removed;
      hide WithinLimits, Undo.Sized, ToSet, RemovalAddresses, RemovalsNames;
      ghost var w, keys := bbg.World(), undo.values.Keys;
      var over, plan := Pruning.Plan(bbg.World(), epoch, MAX_KEYS);
      if plan.None? {
        return Err(Limit("pruning candidates"));
      }
      var sorted := plan.value;
      var i := 0;
      NothingRemoved(w, sorted);
      NothingNamed(w, sorted);
      PrunedIsCycle(w, epoch);
      PrunedTo(w, epoch);
      while i < |sorted|
        invariant 0 <= i <= |sorted| && Open() && undo == old(undo) && bbg.World() == AllRemoved(w, sorted[..i])
        invariant Cut(w, sorted, over, 0) == Cut(w, sorted, over, i)
        invariant undo.values.Keys == keys + RemovalsNames(w, sorted[..i])
      {
        var size := EstimateBytes(bbg.state);
        StopsWhen(w, sorted, over, i, bbg.World());
        CutStep(w, sorted, over, i);
        if over && size <= bbg.config.maxBytes {
          WithinNow();
          return Ok(());
        }
        RemoveNext(w, sorted, i);
        NameNext(w, sorted, i);
        ghost var names := RemovalsNames(w, sorted[..i + 1]);
        r := RemoveLogged(sorted[i]);
        assert keys + names == keys + RemovalsNames(w, sorted[..i]) + ToSet(RemovalAddresses(AllRemoved(w, sorted[..i]), sorted[i]));
        if r.Err? {
          RemovalsGrow(w, sorted, i + 1, Cut(w, sorted, over, i + 1));
          StillOver(keys + names, keys + PruneNames(w, epoch));
          return;
        }
        i := i + 1;
      }
      CutStep(w, sorted, over, i);
      WithinNow();
      r := Ok(());
    }

    // Capture what a removal writes, then remove.
    method RemoveLogged(axon: Key) returns (r: Result<(), Error>)
      requires Open()
      modifies undo, bbg`state, bbg`touched
      ensures Active()
      ensures var names := old(undo.values.Keys) + ToSet(RemovalAddresses(old(bbg.World()), axon));
              && (r.Ok? <==> WithinLimits(bbg.h, start, names))
              && (r.Ok? ==> Open() && undo.values.Keys == names)
      ensures r.Ok? ==> bbg.World() == Removed(old(bbg.World()), axon)
      ensures r.Err? ==> r.error.Limit?
    {
      hide Logged, SameOutside, Grounded, Removed, CoversRemoval, WithinLimits, Total, ToSet, RemovalAddresses;
      ghost var w := bbg.World();
      r := CaptureRemoval(axon);
      if r.Ok? {
        RemovalCovered(w, axon, undo.values.Keys);
        RemovalFrame(w, axon, undo.values.Keys);
        StillLogged(bbg.h, start, w, Removed(w, axon), undo.values);
        bbg.RemoveAxon(axon);
      }
    }

    // The checkpoint follows the state.
    method Advance()
      requires Active()
      modifies bbg`checkpoint
      ensures Active() && bbg.World() == Advanced(bbg.h, old(bbg.World()))
    {
      ghost var w := bbg.World();
      bbg.checkpoint := Checkpoint(bbg.h.root(bbg.state), None, bbg.state.height);
      CheckpointFrame(w, bbg.checkpoint, undo.values.Keys);
      StillLogged(bbg.h, start, w, bbg.World(), undo.values);
    }

    // An unsealed intent.
    method Intend(intent: IntentRecord) returns (r: Result<(), Error>)
      requires Open()
      modifies undo, bbg`state
      ensures Active() && Outcome(IntentEvent(intent), old(bbg.World()), old(undo.values.Keys), r)
    {
      hide EventDone, Logged, SameOutside, Grounded, WithinLimits, Undo.Sized;
      var key := bbg.h.intentKey(intent.neuron, intent.h0, intent.scopeHash);
      ghost var w := bbg.World();
      AppliedDone(bbg.h, w, IntentEvent(intent));
      r := Capture(Intent(key));
      if r.Ok? {
        bbg.ApplyIntent(intent);
        WriteIntent(w, key, bbg.state.intents, undo.values.Keys);
        StillLogged(bbg.h, start, w, bbg.World(), undo.values);
      }
    }

    // A local credit of balance and focus.
    method Credit(neuron: Key, token: Key, amount: u64, focus: u64) returns (r: Result<(), Error>)
      requires Open()
      modifies undo, bbg
      ensures Active() && Outcome(LocalCredit(neuron, token, amount, focus), old(bbg.World()), old(undo.values.Keys), r)
    {
      hide EventDone, Logged, SameOutside, Grounded, Topped, Advanced, WithinLimits, Undo.Sized;
      var key := bbg.h.balanceKey(neuron, token);
      var balance := BalanceOr0(bbg.state, key) + amount;
      if balance >= U64_BOUND {
        return Err(Overflow("balance"));
      }
      var next := FocusOr0(bbg.state, neuron) + focus;
      if next >= U64_BOUND {
        return Err(Overflow("focus"));
      }
      AppliedDone(bbg.h, bbg.World(), LocalCredit(neuron, token, amount, focus));
      assert ToSet([Balance(key), Neuron(neuron)]) == {Balance(key), Neuron(neuron)};
      r := CaptureAll([Balance(key), Neuron(neuron)]);
      if r.Ok? {
        WriteCredit(neuron, token, balance, next);
        Advance();
      }
    }

    method WriteCredit(neuron: Key, token: Key, balance: u64, focus: u64)
      requires Active() && Balance(bbg.h.balanceKey(neuron, token)) in undo.values && Neuron(neuron) in undo.values
      modifies bbg`state
      ensures Active() && bbg.World() == old(bbg.World()).(state := Topped(bbg.h, old(bbg.state), neuron, token, balance, focus))
    {
      hide Logged, SameOutside, Grounded, Undo.Sized;
      ghost var w := bbg.World();
      CreditFrame(bbg.h, w, neuron, token, balance, focus, undo.values.Keys);
      var key := bbg.h.balanceKey(neuron, token);
      bbg.state := bbg.state.(balances := bbg.state.balances[key := balance]);
      var n := if neuron in bbg.state.neurons then bbg.state.neurons[neuron] else NeuronRecord(0, 0, 0, 0);
      bbg.state := bbg.state.(neurons := bbg.state.neurons[neuron := n.(focus := focus)]);
      StillLogged(bbg.h, start, w, bbg.World(), undo.values);
    }

    // One event of the batch.
    method Apply(e: Event) returns (r: Result<(), Error>)
      requires Open()
      modifies undo, bbg
      ensures Active() && Outcome(e, old(bbg.World()), old(undo.values.Keys), r)
    {
      hide EventDone, Logged, Grounded, Invalid, Signalled, WithinLimits, Undo.Sized, Outcome;
      match e {
        case SignalEvent(sig, header) =>
          r := Signal(sig, header);
        case IntentEvent(intent) =>
          r := Intend(intent);
        case LocalCredit(neuron, token, amount, focus) =>
          r := Credit(neuron, token, amount, focus);
      }
    }

    // Read every captured address again, in key order, and keep the records that differ. That
    // is refused exactly if the write set would be too large.
    method CollectChanges() returns (r: Result<(), Error>)
      requires Active() && changes == []
      modifies this`changes
      ensures Active() && (r.Ok? <==> Writable(bbg.h, start, bbg.World(), undo.values.Keys))
      ensures r.Ok? ==> ExactChanges(bbg.h, start, bbg.World(), changes)
      ensures r.Err? ==> r.error.Limit?
    {
      hide Logged, Read, TooLong, Grounded, Found, Lt, KeyOf, StrictTotal, Total, Size;
      ghost var h, cur, keys := bbg.h, bbg.World(), undo.values.Keys;
      var todo := undo.values.Keys;
      var bytes := 0;
      ghost var found: seq<Address> := [];
      NothingFound(h, start, cur);
      assert keys - todo == {};
      ByKeyTotal();
      while todo != {}
        invariant todo <= keys && Found(h, start, cur, changes, found)
        invariant forall i, a :: 0 <= i < |changes| && a in todo ==> Lt(changes[i].key, KeyOf(a))
        invariant forall a :: a in keys && a !in todo && Changed(h, start, cur, a) ==> a in found
        invariant bytes == Total(h, cur, ChangedAmong(h, start, cur, keys - todo)) && bytes <= MAX_BYTES
        decreases todo
      {
        var a := Least(ByKey(), todo);
        forall b | b in todo && b != a
          ensures Lt(KeyOf(a), KeyOf(b))
        {
          assert ByKey()(a, b);
        }
        var value := BoundedRead(bbg, a);
        LoggedValue(h, start, cur, undo.values, a);
        CountChange(h, start, cur, keys, todo, a);
        if value.Err? {
          return Err(value.error);
        }
        if value.value != undo.values[a] {
          bytes := bytes + Size(a, value.value);
          if bytes > MAX_BYTES {
            return Err(Limit("write-set bytes"));
          }
          FindNext(h, start, cur, changes, found, RecordChange(KeyOf(a), value.value), a);
          changes := changes + [RecordChange(KeyOf(a), value.value)];
          found := found + [a];
        }
        todo := todo - {a};
      }
      assert keys - todo == keys;
      forall a | Changed(h, start, cur, a)
        ensures a in found
      {
        if a !in undo.values {
          UnloggedUnchanged(h, start, cur, undo.values, a);
        }
      }
      AllFound(h, start, cur, changes, found);
      r := Ok(());
    }

    // Keep the candidate.
    method Publish()
      modifies this`undo
      ensures undo == null && bbg.World() == old(bbg.World())
    {
      undo := null;
    }

    // Dropping an active preparation puts back every captured record.
    method Drop()
      requires Active()
      modifies bbg
      ensures bbg.World() == start
    {
      undo.Restore(bbg, start);
    }
  }

  // ---------------------------------------------------------------- batches

  lemma BatchStep(h: Hashes, w: World, events: seq<Event>, i: nat)
    requires i < |events| && Batch(h, w, events[..i]).Some?
    ensures var v := Batch(h, w, events[..i]).value;
            Batch(h, w, events[..i + 1]) == if Refused(h, v, events[i]).None? then Some(Applied(h, v, events[i])) else None
  {
    hide Refused, Applied;
    assert events[..i + 1][..i] == events[..i];
  }

  // One snapshot per event: the height and root it left.
  ghost predicate Snapshots(h: Hashes, w: World, events: seq<Event>, snapshots: seq<Snapshot>)
  {
    && |snapshots| <= |events|
    && forall i :: 0 <= i < |snapshots| ==> SnapshotOf(h, Batch(h, w, events[..i + 1]), snapshots[i])
  }

  ghost predicate SnapshotOf(h: Hashes, v: Option<World>, s: Snapshot)
  {
    v.Some? && s == Snapshot(v.value.state.height, h.root(v.value.state))
  }

  // The log has room for a batch: its pruning cycles can be planned and what it names fits.
  ghost predicate Roomy(h: Hashes, w: World, events: seq<Event>)
  {
    BatchPlannable(h, w, events) && WithinLimits(h, w, BatchNames(h, w, events))
  }

  // The batches that are prepared: no event is refused and no limit is met, be it on events, on
  // the log or on the write set.
  ghost predicate Preparable(h: Hashes, w: World, events: seq<Event>)
  {
    && 0 < |events| <= MAX_EVENTS && w.checkpoint.proof.None? && w.config.rankFloorPct <= 100
    && Batch(h, w, events).Some? && Roomy(h, w, events)
    && Writable(h, w, Batch(h, w, events).value, BatchNames(h, w, events))
  }

  // Why a batch is not prepared.
  ghost predicate Justified(h: Hashes, w: World, events: seq<Event>, e: Error)
  {
    || (e.Limit? && !(0 < |events| <= MAX_EVENTS && w.config.rankFloorPct <= 100))
    || (e.CheckpointProof? && w.checkpoint.proof.Some?)
    || StoppedBy(h, w, events, e)
    || (e.Limit? && Batch(h, w, events).Some? && !Writable(h, w, Batch(h, w, events).value, BatchNames(h, w, events)))
  }

  // The preparation, with the metadata captured before anything else.
  method Begin(bbg: Bbg) returns (r: Result<Prepared, Error>)
    requires Grounded(bbg.World())
    ensures r.Ok? <==> WithinLimits(bbg.h, bbg.World(), {Meta})
    ensures r.Err? ==> r.error.Limit?
    ensures r.Ok? ==>
      && fresh(r.value) && r.value.bbg == bbg && r.value.start == bbg.World() && fresh(r.value.undo) && r.value.Open()
      && r.value.undo.values.Keys == {Meta} && r.value.changes == [] && r.value.snapshots == []
  {
    hide Logged, ListsOk, Metadata, TooLong;
    var undo := new Undo(bbg);
    NothingLogged(bbg.h, bbg.World());
    var p := new Prepared(bbg, undo);
    assert undo.values.Keys + {Meta} == {Meta};
    var captured := undo.Capture(bbg, Meta, p.start);
    if captured.Err? {
      return Err(captured.error);
    }
    return Ok(p);
  }

  lemma NothingLogged(h: Hashes, w: World)
    ensures Logged(h, w, w, map[]) && WithinLimits(h, w, {}) && Total(h, w, {}) == 0
  {
  }

  // The events in order, with a snapshot after each; stops at the first that is refused or for
  // which there is no room.
  method Run(p: Prepared, events: seq<Event>) returns (failed: Option<Error>)
    requires p.Open() && p.start == p.bbg.World() && p.snapshots == [] && p.undo.values.Keys == {Meta}
    modifies p`snapshots, p.undo, p.bbg
    ensures p.undo == old(p.undo) && p.Active()
    ensures failed.None? <==> Batch(p.bbg.h, p.start, events).Some? && Roomy(p.bbg.h, p.start, events)
    ensures failed.Some? ==> StoppedBy(p.bbg.h, p.start, events, failed.value)
    ensures failed.None? ==> Batch(p.bbg.h, p.start, events) == Some(p.bbg.World()) && p.undo.values.Keys == BatchNames(p.bbg.h, p.start, events)
    ensures failed.None? ==> |p.snapshots| == |events| && Snapshots(p.bbg.h, p.start, events, p.snapshots)
  {
    hide EventDone, Logged, Grounded, Refused, Applied, Batch, SnapshotOf, EventNames, EventPlannable, WithinLimits, BatchNames, PlannableAt, Undo.Sized;
    ghost var h, w := p.bbg.h, p.start;
    var i := 0;
    EmptyBatch(h, w, events);
    while i < |events|
      invariant 0 <= i <= |events| && p.undo == old(p.undo) && p.Open()
      invariant Batch(h, w, events[..i]) == Some(p.bbg.World())
      invariant BatchPlannable(h, w, events[..i]) && p.undo.values.Keys == BatchNames(h, w, events[..i])
      invariant |p.snapshots| == i && Snapshots(h, w, events, p.snapshots)
    {
      BatchStep(h, w, events, i);
      RoomStep(h, w, events, i);
      var r := p.Apply(events[i]);
      if r.Err? {
        Stopped(h, w, events, i, r.error);
        return Some(r.error);
      }
      var s := Snapshot(p.bbg.state.height, p.bbg.h.root(p.bbg.state));
      SnapshotHere(h, p.bbg.World(), s);
      p.snapshots := p.snapshots + [s];
      i := i + 1;
    }
    assert events[..i] == events;
    p.WithinNow();
    failed := None;
  }

  // Some accepted prefix has no room, or the event after it is refused.
  ghost predicate StoppedBy(h: Hashes, w: World, events: seq<Event>, e: Error)
  {
    || (e.Limit? && exists i :: 0 <= i <= |events| && Batch(h, w, events[..i]).Some? && !Roomy(h, w, events[..i]))
    || exists i :: 0 <= i < |events| && RefusedAt(h, w, events, i, e)
  }

  // One more event needs room for what it names.
  lemma RoomStep(h: Hashes, w: World, events: seq<Event>, i: nat)
    requires i < |events| && Batch(h, w, events[..i]).Some? && BatchPlannable(h, w, events[..i])
    ensures var v, e := Batch(h, w, events[..i]).value, events[i];
            Refused(h, v, e).None? ==>
              && BatchNames(h, w, events[..i + 1]) == BatchNames(h, w, events[..i]) + EventNames(h, v, e)
              && (BatchPlannable(h, w, events[..i + 1]) <==> EventPlannable(h, v, e))
              && (Roomy(h, w, events[..i + 1]) <==> Admits(h, w, BatchNames(h, w, events[..i]), v, e))
  {
    hide Refused, Applied, EventNames, EventPlannable, WithinLimits, Batch;
    var more := events[..i + 1];
    assert more[..i] == events[..i];
    forall j | 0 <= j < i
      ensures PlannableAt(h, w, more, j)
    {
      assert more[..j] == events[..i][..j] && PlannableAt(h, w, events[..i], j);
    }
    if BatchPlannable(h, w, more) {
      assert PlannableAt(h, w, more, i);
    }
  }

  // An event without room, or refused, stops the whole batch.
  lemma Stopped(h: Hashes, w: World, events: seq<Event>, i: nat, e: Error)
    requires i < |events| && Batch(h, w, events[..i]).Some? && BatchPlannable(h, w, events[..i])
    requires var v := Batch(h, w, events[..i]).value;
             || Refused(h, v, events[i]) == Some(e)
             || (e.Limit? && Refused(h, v, events[i]).None? && !Admits(h, w, BatchNames(h, w, events[..i]), v, events[i]))
    ensures StoppedBy(h, w, events, e) && !(Batch(h, w, events).Some? && Roomy(h, w, events))
  {
    hide Refused, Applied, EventNames, EventPlannable, WithinLimits, Batch, BatchNames;
    BatchStep(h, w, events, i);
    RoomStep(h, w, events, i);
    RoomyPrefix(h, w, events, i + 1);
    if Refused(h, Batch(h, w, events[..i]).value, events[i]) == Some(e) {
      assert RefusedAt(h, w, events, i, e);
    }
  }

  lemma RoomyPrefix(h: Hashes, w: World, events: seq<Event>, n: nat)
    requires n <= |events|
    ensures Roomy(h, w, events) ==> Roomy(h, w, events[..n])
    ensures Batch(h, w, events).Some? ==> Batch(h, w, events[..n]).Some?
  {
    hide Refused, Applied, EventNames, EventPlannable, WithinLimits, Batch, BatchNames;
    assert events[..|events|] == events;
    BatchGrows(h, w, events, n, |events|);
    if Roomy(h, w, events) {
      WithinMonotone(h, w, BatchNames(h, w, events[..n]), BatchNames(h, w, events));
      forall j | 0 <= j < n
        ensures PlannableAt(h, w, events[..n], j)
      {
        assert events[..n][..j] == events[..j] && PlannableAt(h, w, events, j);
      }
    }
  }

  lemma EmptyBatch(h: Hashes, w: World, events: seq<Event>)
    ensures Batch(h, w, events[..0]) == Some(w)
    ensures BatchNames(h, w, events[..0]) == {Meta} && BatchPlannable(h, w, events[..0])
  {
  }

  lemma SnapshotHere(h: Hashes, v: World, s: Snapshot)
    requires s == Snapshot(v.state.height, h.root(v.state))
    ensures SnapshotOf(h, Some(v), s)
  {
  }

  // Prepare a batch: all of its events, the exact write set and a snapshot per event, or, on any
  // error, the Bbg untouched.
  method PrepareBatch(bbg: Bbg, events: seq<Event>) returns (r: Result<Prepared, Error>)
    requires ListsOk(bbg.state.axonsOut) && ListsOk(bbg.state.axonsIn)
    modifies bbg
    ensures r.Ok? <==> Preparable(bbg.h, old(bbg.World()), events)
    ensures r.Err? ==> bbg.World() == old(bbg.World()) && Justified(bbg.h, old(bbg.World()), events, r.error)
    ensures r.Ok? ==>
      && fresh(r.value) && r.value.bbg == bbg && r.value.start == old(bbg.World()) && r.value.undo != null && r.value.Active()
      && Batch(bbg.h, old(bbg.World()), events) == Some(bbg.World())
      && ExactChanges(bbg.h, old(bbg.World()), bbg.World(), r.value.changes)
      && |r.value.snapshots| == |events| && Snapshots(bbg.h, old(bbg.World()), events, r.value.snapshots)
      && Leads(bbg.h, old(bbg.World()), bbg.World(), events)
      && |bbg.state.nullifiers| == |old(bbg.state).nullifiers| + MoveCount(events)
      && |bbg.state.signals| == |old(bbg.state).signals| + SignalCount(events)
    ensures r.Ok? && |events| == 1 && events[0].SignalEvent? ==>
      var sig, header, s := events[0].sig, events[0].header, old(bbg.state);
      && header.neuron == sig.neuron && header.linkCount == |sig.links| && header.blockHeight == sig.height
      && bbg.h.signalKey(header.neuron, header.step) !in s.signals
      && bbg.state.signals == s.signals[bbg.h.signalKey(header.neuron, header.step) := header]
      && bbg.state.nullifiers == s.nullifiers + (set i | 0 <= i < |sig.moves| :: sig.moves[i].nullifier)
      && |bbg.state.nullifiers| == |s.nullifiers| + |sig.moves| && |bbg.state.signals| == |s.signals| + 1
  {
    hide Through, Leads, SignalDone, MoveCount, SignalCount;
    hide Logged, Batch, Refused, Applied, ExactChanges, ListsOk, BatchNames, BatchPlannable, WithinLimits, Writable, Undo.Sized;
    if |events| == 0 || |events| > MAX_EVENTS {
      return Err(Limit("event count"));
    }
    if bbg.checkpoint.proof.Some? {
      return Err(CheckpointProof);
    }
    if bbg.config.rankFloorPct > 100 {
      return Err(Limit("pruning rank floor"));
    }
    ghost var h, w := bbg.h, bbg.World();
    EmptyBatch(h, w, events);
    var begun := Begin(bbg);
    if begun.Err? {
      RoomyPrefix(h, w, events, 0);
      assert !Roomy(h, w, events[..0]);
      return Err(begun.error);
    }
    var p := begun.value;
    var failed := Run(p, events);
    if failed.None? {
      var collected := p.CollectChanges();
      if collected.Ok? {
        BatchLeads(h, w, events);
        BatchAdds(h, w, bbg.World(), events);
        if |events| == 1 && events[0].SignalEvent? {
          OneSignalAdds(h, w, bbg.World(), events, events[0].sig, events[0].header);
        }
        return Ok(p);
      }
      failed := Some(collected.error);
    }
    p.Drop();
    return Err(failed.value);
  }
}
