// What is spent stays spent: nullifiers and balances over whole runs of the ordinary path.
module Spending {
  import opened Wrappers
  import opened Bytes
  import opened Integers
  import opened Records
  import opened Graph
  import opened Pruning
  import opened Cycles
  import opened Blocks
  import opened Adjacency
  import opened Undos
  import opened Transition
  import Effects

  // Nothing unspends a nullifier or leaves a zero balance.
  ghost predicate Spends(s: State, t: State)
  {
    s.nullifiers <= t.nullifiers && (Effects.Positive(s) ==> Effects.Positive(t))
  }

  // The step inserts a signal that takes this nullifier.
  ghost predicate Takes(h: Hashes, w: World, step: Step, k: Key)
  {
    step.Insert? && !Spent(w.state, step.sig.moves) && exists i :: 0 <= i < |step.sig.moves| && step.sig.moves[i].nullifier == k
  }

  lemma FinalizeSpends(h: Hashes, w: World)
    requires w.state.height + 1 < U64_BOUND
    ensures var t := Finalized(h, w).state; t.nullifiers == w.state.nullifiers && t.balances == w.state.balances
  {
    hide Pruned, Cycled;
    var t := Ticked(h, w);
    PrunedIsCycle(t, Epoch(t.state));
    CycleKeeps(t, Pruned(t, Epoch(t.state)), Epoch(t.state));
  }

  lemma StepSpends(h: Hashes, w: World, step: Step)
    ensures Spends(w.state, After(h, w, step).state)
    ensures forall k :: k in After(h, w, step).state.nullifiers <==> k in w.state.nullifiers || Takes(h, w, step, k)
  {
    hide Finalized, AllLinked, AllMoved, AllTouched;
    match step
    case Insert(sig) =>
      if !Spent(w.state, sig.moves) {
        Inserting(h, w, sig);
      }
    case Finalize =>
      if w.state.height + 1 < U64_BOUND {
        FinalizeSpends(h, w);
      }
    case _ =>
  }

  lemma Inserting(h: Hashes, w: World, sig: Signal)
    ensures var s, t := w.state, Inserted(h, w, sig).state;
            && t.nullifiers == s.nullifiers + (set i | 0 <= i < |sig.moves| :: sig.moves[i].nullifier)
            && (Effects.Positive(s) ==> Effects.Positive(t))
  {
    hide AllLinked, AllMoved, AllTouched, Effects.CommitmentsAfter, Effects.ParticlesAfter, Effects.ListsAfter;
    Effects.InsertedEffects(h, w, sig);
  }

  ghost predicate TakenIn(h: Hashes, w: World, steps: seq<Step>, k: Key)
  {
    exists i :: 0 <= i < |steps| && Takes(h, Run(h, w, steps[..i]), steps[i], k)
  }

  lemma TakenPush(h: Hashes, w: World, steps: seq<Step>, k: Key)
    requires steps != []
    ensures var n := |steps| - 1;
            TakenIn(h, w, steps, k) <==> TakenIn(h, w, steps[..n], k) || Takes(h, Run(h, w, steps[..n]), steps[n], k)
  {
    hide Takes, Run;
    var n := |steps| - 1;
    assert forall i :: 0 <= i < n ==> steps[..n][..i] == steps[..i] && steps[..n][i] == steps[i];
    if TakenIn(h, w, steps[..n], k) {
      var i :| 0 <= i < n && Takes(h, Run(h, w, steps[..n][..i]), steps[..n][i], k);
      assert Takes(h, Run(h, w, steps[..i]), steps[i], k);
    }
  }

  // After a run exactly those nullifiers are spent that were so at its start or that an accepted signal
  // of the run took, and no balance row is zero.
  lemma {:induction false} RunSpends(h: Hashes, w: World, steps: seq<Step>)
    ensures Spends(w.state, Run(h, w, steps).state)
    ensures forall k :: k in Run(h, w, steps).state.nullifiers <==> k in w.state.nullifiers || TakenIn(h, w, steps, k)
  {
    hide After, Takes, TakenIn, Effects.Positive;
    if steps == [] {
      NothingTaken(h, w);
    } else {
      var n := |steps| - 1;
      RunSpends(h, w, steps[..n]);
      StepSpends(h, Run(h, w, steps[..n]), steps[n]);
      forall k
        ensures k in Run(h, w, steps).state.nullifiers <==> k in w.state.nullifiers || TakenIn(h, w, steps, k)
      {
        TakenPush(h, w, steps, k);
      }
    }
  }

  lemma NothingTaken(h: Hashes, w: World)
    ensures forall k :: !TakenIn(h, w, [], k)
  {
  }

  lemma {:induction false} RunOn(h: Hashes, w: World, steps: seq<Step>, more: seq<Step>)
    ensures Run(h, w, steps + more) == Run(h, Run(h, w, steps), more)
  {
    hide After;
    if more == [] {
      assert steps + more == steps;
    } else {
      var n := |more| - 1;
      assert (steps + more)[..|steps + more| - 1] == steps + more[..n];
      RunOn(h, w, steps, more[..n]);
    }
  }

  // A nullifier is taken once: after a signal was inserted, no signal that shares a nullifier with it,
  // and so not the signal itself unless it has no moves, is ever inserted again.
  lemma TakenOnce(h: Hashes, w: World, sig: Signal, steps: seq<Step>, again: Signal)
    requires !Spent(w.state, sig.moves)
    requires exists i, j :: 0 <= i < |sig.moves| && 0 <= j < |again.moves| && sig.moves[i].nullifier == again.moves[j].nullifier
    ensures var v := Run(h, w, [Insert(sig)] + steps); Spent(v.state, again.moves) && After(h, v, Insert(again)) == v
  {
    hide Run, AllLinked, AllMoved, AllTouched;
    var i, j :| 0 <= i < |sig.moves| && 0 <= j < |again.moves| && sig.moves[i].nullifier == again.moves[j].nullifier;
    var u := After(h, w, Insert(sig));
    Inserting(h, w, sig);
    assert again.moves[j].nullifier in u.state.nullifiers;
    RunOn(h, w, [Insert(sig)], steps);
    OneStep(h, w, Insert(sig));
    RunSpends(h, u, steps);
  }

  lemma OneStep(h: Hashes, w: World, step: Step)
    ensures Run(h, w, [step]) == After(h, w, step)
  {
    assert [step][..0] == [];
    assert Run(h, w, []) == w;
  }

  // ---------------------------------------------------------------- one signal, one nullifier twice

  predicate Distinct(moves: seq<BoxMove>)
  {
    forall i, j :: 0 <= i < j < |moves| ==> moves[i].nullifier != moves[j].nullifier
  }

  lemma {:induction false} NullifiersCounted(moves: seq<BoxMove>)
    ensures |Effects.Nullifiers(moves)| <= |moves|
    ensures |Effects.Nullifiers(moves)| == |moves| <==> Distinct(moves)
  {
    hide Effects.Nullifiers;
    if moves == [] {
      NoNullifiers();
    } else {
      var n := |moves| - 1;
      NullifiersCounted(moves[..n]);
      Effects.NullifiersPush(moves);
      LastDistinct(moves);
    }
  }

  lemma NoNullifiers()
    ensures Effects.Nullifiers([]) == {}
  {
  }

  lemma LastDistinct(moves: seq<BoxMove>)
    requires moves != []
    ensures var n := |moves| - 1;
            Distinct(moves) <==> Distinct(moves[..n]) && moves[n].nullifier !in Effects.Nullifiers(moves[..n])
  {
    var n := |moves| - 1;
    assert forall i :: 0 <= i < n ==> moves[..n][i] == moves[i];
    if moves[n].nullifier in Effects.Nullifiers(moves[..n]) {
      var i :| 0 <= i < n && moves[..n][i].nullifier == moves[n].nullifier;
      assert moves[i].nullifier == moves[n].nullifier;
    }
    if i :| 0 <= i < n && moves[i].nullifier == moves[n].nullifier {
      assert moves[..n][i].nullifier == moves[n].nullifier;
    }
  }

  // insert() keeps every move of an accepted signal to a nullifier of its own exactly when the signal
  // names no nullifier twice: it looks each up in what was spent before the signal.
  lemma EachSpendsOne(h: Hashes, w: World, sig: Signal)
    requires !Spent(w.state, sig.moves)
    ensures |Inserted(h, w, sig).state.nullifiers| == |w.state.nullifiers| + |sig.moves| <==> Distinct(sig.moves)
  {
    hide AllLinked, AllMoved, AllTouched, Effects.CommitmentsAfter, Effects.ParticlesAfter, Effects.ListsAfter, Effects.BalancesAfter, Distinct;
    Effects.InsertedEffects(h, w, sig);
    NullifiersCounted(sig.moves);
    assert w.state.nullifiers !! Effects.Nullifiers(sig.moves);
  }

  // The input where it fails: a signal of two moves with one unspent nullifier goes in and spends it
  // once. The validation of a batch refuses it.
  lemma TwiceInOne(h: Hashes, w: World, sig: Signal, header: SignalRecord, k: Key)
    requires k !in w.state.nullifiers && sig.moves == [BoxMove(k, None), BoxMove(k, None)] && sig.links == []
    ensures !Spent(w.state, sig.moves) && Inserted(h, w, sig).state.nullifiers == w.state.nullifiers + {k}
    ensures Invalid(h, w.state, sig, header).Some?
    ensures (&& w.state.height + 1 < U64_BOUND && header.neuron == sig.neuron && header.linkCount == 0 && header.blockHeight == sig.height
             && h.signalKey(header.neuron, header.step) !in w.state.signals) ==> Invalid(h, w.state, sig, header) == Some(DoubleSpend)
  {
    hide AllLinked, AllMoved, AllTouched;
    Inserting(h, w, sig);
    assert (set i | 0 <= i < |sig.moves| :: sig.moves[i].nullifier) == {k} by {
      assert sig.moves[0].nullifier == k;
    }
    assert sig.moves[0].nullifier == sig.moves[1].nullifier;
  }
}
