// What a pruning cycle takes and leaves, stated without the plan it follows.
module Cycles {
  import opened Wrappers
  import opened Bytes
  import opened Integers
  import opened Records
  import opened Axons
  import opened Graph
  import opened Effects
  import opened Pruning
  import opened Sorting

  // ---------------------------------------------------------------- what is taken

  // The axons among gone that leave p; and those that enter it.
  ghost function Outgoing(edges: map<Key, (Key, Key)>, gone: set<Key>, p: Key): set<Key>
  {
    set a | a in gone && a in edges && edges[a].0 == p
  }

  ghost function Incoming(edges: map<Key, (Key, Key)>, gone: set<Key>, p: Key): set<Key>
  {
    set a | a in gone && a in edges && edges[a].1 == p
  }

  // What a list keeps stands in the order it stood in.
  ghost predicate InOrder(before: seq<Key>, after: seq<Key>)
  {
    && NoDup(after)
    && forall x, y, j :: 0 <= x < y < |after| && 0 <= j < |before| && before[j] == after[y] ==> after[x] in before[..j]
  }

  // A list loses these axons and no other; an emptied list goes.
  ghost predicate Thinned(before: Lists, after: Lists, p: Key, gone: set<Key>)
  {
    var list, kept := ListOf(before, p), ListOf(after, p);
    && (forall x :: x in kept <==> x in list && x !in gone)
    && (p in after <==> p in before && (list == [] || kept != []))
    && (NoDup(list) ==> InOrder(list, kept))
  }

  lemma NothingThinned(lists: Lists, p: Key)
    ensures Thinned(lists, lists, p, {})
  {
  }

  lemma CutInOrder(list: seq<Key>, kept: seq<Key>, i: nat)
    requires NoDup(list) && InOrder(list, kept) && i < |kept|
    ensures InOrder(list, kept[..i] + kept[i + 1..])
  {
    var cut := kept[..i] + kept[i + 1..];
    forall x | 0 <= x < |cut|
      ensures cut[x] == kept[if x < i then x else x + 1]
    {
    }
  }

  lemma DropThins(before: Lists, lists: Lists, p: Key, gone: set<Key>, q: Key, a: Key)
    requires Thinned(before, lists, p, gone)
    ensures Thinned(before, DropAxon(lists, q, a), p, if p == q then gone + {a} else gone)
  {
    hide InOrder, NoDup;
    var kept := ListOf(lists, p);
    if p == q && a in kept {
      assert ListOf(DropAxon(lists, q, a), p) == Retain(kept, a);
      assert kept[0] in kept;
      if NoDup(ListOf(before, p)) {
        KeptNoDup(ListOf(before, p), kept);
        var i :| 0 <= i < |kept| && kept[i] == a;
        RetainCuts(kept, a, i);
        CutInOrder(ListOf(before, p), kept, i);
      }
    }
  }

  lemma KeptNoDup(before: seq<Key>, after: seq<Key>)
    requires InOrder(before, after)
    ensures NoDup(after)
  {
  }

  // The particles, edges and touches of exactly these keys are gone, with their places in the lists.
  ghost predicate Took(w: World, v: World, gone: set<Key>)
  {
    var s, t := w.state, v.state;
    && t.particles == s.particles - gone && t.edges == s.edges - gone && v.touched == w.touched - gone
    && (forall p :: Thinned(s.axonsOut, t.axonsOut, p, Outgoing(s.edges, gone, p)))
    && (forall p :: Thinned(s.axonsIn, t.axonsIn, p, Incoming(s.edges, gone, p)))
    && t == s.(particles := t.particles, edges := t.edges, axonsOut := t.axonsOut, axonsIn := t.axonsIn)
    && v == w.(state := t, touched := v.touched)
  }

  lemma TookNone(w: World)
    ensures Took(w, w, {})
  {
    hide Thinned;
    forall p
      ensures Thinned(w.state.axonsOut, w.state.axonsOut, p, Outgoing(w.state.edges, {}, p))
      ensures Thinned(w.state.axonsIn, w.state.axonsIn, p, Incoming(w.state.edges, {}, p))
    {
      assert Outgoing(w.state.edges, {}, p) == {} && Incoming(w.state.edges, {}, p) == {};
      NothingThinned(w.state.axonsOut, p);
      NothingThinned(w.state.axonsIn, p);
    }
  }

  lemma EndsPush(edges: map<Key, (Key, Key)>, gone: set<Key>, k: Key, p: Key)
    ensures Outgoing(edges, gone + {k}, p) ==
              if k in edges && edges[k].0 == p then Outgoing(edges, gone, p) + {k} else Outgoing(edges, gone, p)
    ensures Incoming(edges, gone + {k}, p) ==
              if k in edges && edges[k].1 == p then Incoming(edges, gone, p) + {k} else Incoming(edges, gone, p)
  {
  }

  lemma TookOne(w: World, u: World, gone: set<Key>, k: Key)
    requires Took(w, u, gone) && k !in gone
    ensures Took(w, Removed(u, k), gone + {k})
  {
    hide Thinned, Outgoing, Incoming, DropAxon;
    var s, v := w.state, Removed(u, k);
    assert k in u.state.edges <==> k in s.edges;
    forall p
      ensures Thinned(s.axonsOut, v.state.axonsOut, p, Outgoing(s.edges, gone + {k}, p))
      ensures Thinned(s.axonsIn, v.state.axonsIn, p, Incoming(s.edges, gone + {k}, p))
    {
      EndsPush(s.edges, gone, k, p);
      if k in s.edges {
        DropThins(s.axonsOut, u.state.axonsOut, p, Outgoing(s.edges, gone, p), s.edges[k].0, k);
        DropThins(s.axonsIn, u.state.axonsIn, p, Incoming(s.edges, gone, p), s.edges[k].1, k);
      }
    }
  }

  lemma TakesOne(w: World, axon: Key)
    ensures Took(w, Removed(w, axon), {axon})
  {
    hide Took;
    TookNone(w);
    TookOne(w, w, {}, axon);
    assert {} + {axon} == {axon};
  }

  lemma {:induction false} TookAll(w: World, plan: seq<Key>)
    requires NoDup(plan)
    ensures Took(w, AllRemoved(w, plan), Elements(plan))
  {
    hide Took, Removed;
    if plan == [] {
      TookNone(w);
      assert Elements(plan) == {};
    } else {
      var n := |plan| - 1;
      assert plan == plan[..n] + [plan[n]];
      assert Elements(plan) == Elements(plan[..n]) + {plan[n]};
      TookAll(w, plan[..n]);
      TookOne(w, AllRemoved(w, plan[..n]), Elements(plan[..n]), plan[n]);
    }
  }

  // ---------------------------------------------------------------- a cycle

  // Over budget: from below the floor, lightest first, until the graph fits or none is left, and no more.
  ghost predicate Pressed(w: World, v: World, below: set<Key>, gone: set<Key>)
  {
    && gone <= below && (forall a, b :: a in gone && b in below - gone ==> Sooner(w.state, a, b))
    && (gone == below || Occupied(v.state) <= w.config.maxBytes)
    && (gone != {} ==> exists last :: last in gone && Needed(w, gone, last))
  }

  // Of what is gone this went last, and without it the graph did not fit.
  ghost predicate Needed(w: World, gone: set<Key>, last: Key)
  {
    && (forall a :: a in gone && a != last ==> Sooner(w.state, a, last))
    && exists u :: Took(w, u, gone - {last}) && Occupied(u.state) > w.config.maxBytes
  }

  ghost predicate TookRight(w: World, v: World, epoch: u64, floor: u64, gone: set<Key>)
  {
    && IsFloor(w.state.particles, w.config.rankFloorPct, floor) && Took(w, v, gone)
    && if Occupied(w.state) <= w.config.maxBytes then gone == Stale(w, epoch, floor)
       else Pressed(w, v, BelowFloor(w, floor), gone)
  }

  // What a cycle does, in full.
  ghost predicate Cycled(w: World, v: World, epoch: u64)
  {
    exists floor: u64, gone: set<Key> :: TookRight(w, v, epoch, floor, gone)
  }

  lemma PrefixNoDup(plan: seq<Key>, n: nat)
    requires NoDup(plan) && n <= |plan|
    ensures NoDup(plan[..n]) && Elements(plan[..n]) <= Elements(plan) && (n == |plan| ==> Elements(plan[..n]) == Elements(plan))
    ensures n > 0 ==> Elements(plan[..n]) - {plan[n - 1]} == Elements(plan[..n - 1]) && plan[n - 1] in Elements(plan[..n])
  {
    if n > 0 {
      assert plan[..n] == plan[..n - 1] + [plan[n - 1]];
    }
    assert n == |plan| ==> plan[..n] == plan;
  }

  lemma InPrefix(plan: seq<Key>, j: nat, n: nat)
    requires j < |plan| && n <= |plan|
    ensures j < n ==> plan[j] in Elements(plan[..n])
  {
    assert j < n ==> plan[..n][j] == plan[j];
  }

  // A prefix of the plan holds the lightest.
  lemma PrefixFirst(ws: map<Key, u64>, n: nat, a: Key, b: Key)
    requires n <= |Ordered(ws)| && a in Elements(Ordered(ws)[..n]) && b in ws.Keys - Elements(Ordered(ws)[..n])
    ensures Before(ws, a, b)
  {
    hide Before, Ordered;
    OrderedFacts(ws);
    var plan := Ordered(ws);
    var i :| 0 <= i < n && plan[..n][i] == a;
    assert b in Elements(plan);
    var j :| 0 <= j < |plan| && plan[j] == b;
    InPrefix(plan, j, n);
    OrderedBefore(ws, i, j);
  }

  lemma LastOfPrefix(ws: map<Key, u64>, n: nat, a: Key)
    requires 0 < n <= |Ordered(ws)| && a in Elements(Ordered(ws)[..n]) && a != Ordered(ws)[n - 1]
    ensures Before(ws, a, Ordered(ws)[n - 1])
  {
    hide Before, Ordered;
    var plan := Ordered(ws);
    var i :| 0 <= i < n && plan[..n][i] == a;
    OrderedBefore(ws, i, n - 1);
  }

  lemma Pressing(w: World, epoch: u64)
    requires OverBudget(w)
    ensures var plan := Ordered(Candidates(w, epoch));
            Pressed(w, Pruned(w, epoch), Candidates(w, epoch).Keys, Elements(plan[..Cut(w, plan, true, 0)]))
  {
    hide Candidates, Ordered, Elements, Estimate, Occupied, Before, Sooner, NoDup, AllRemoved, Cut, Took;
    var ws := Candidates(w, epoch);
    var plan := Ordered(ws);
    OrderedFacts(ws);
    var n := Cut(w, plan, true, 0);
    var gone, v := Elements(plan[..n]), AllRemoved(w, plan[..n]);
    PrefixNoDup(plan, n);
    forall a, b | a in gone && b in ws.Keys - gone
      ensures Sooner(w.state, a, b)
    {
      PrefixFirst(ws, n, a, b);
      HeavierLater(w, epoch, a, b);
    }
    CutIsShortest(w, plan, true, 0);
    TookAll(w, plan[..n]);
    SameConfig(w, v, gone);
    EstimateIsOccupied(v.state);
    assert n < |plan| ==> StopsAt(w, plan, true, n);
    if n > 0 {
      LastNeeded(w, epoch, n);
    } else {
      NoElements(plan);
    }
  }

  lemma NoElements(plan: seq<Key>)
    ensures Elements(plan[..0]) == {}
  {
  }

  lemma SameConfig(w: World, v: World, gone: set<Key>)
    requires Took(w, v, gone)
    ensures v.config == w.config
  {
  }

  lemma LastNeeded(w: World, epoch: u64, n: nat)
    requires var plan := Ordered(Candidates(w, epoch)); OverBudget(w) && 0 < n <= |plan| && n == Cut(w, plan, true, 0)
    ensures var plan := Ordered(Candidates(w, epoch)); plan[n - 1] in Elements(plan[..n]) && Needed(w, Elements(plan[..n]), plan[n - 1])
  {
    hide Candidates, Ordered, Estimate, Occupied, Before, Sooner, NoDup, AllRemoved, Cut, Took, Elements;
    var ws := Candidates(w, epoch);
    var plan := Ordered(ws);
    OrderedFacts(ws);
    PrefixNoDup(plan, n);
    PrefixNoDup(plan, n - 1);
    CutIsShortest(w, plan, true, 0);
    var last, gone, u := plan[n - 1], Elements(plan[..n]), AllRemoved(w, plan[..n - 1]);
    forall a | a in gone && a != last
      ensures Sooner(w.state, a, last)
    {
      LastOfPrefix(ws, n, a);
      HeavierLater(w, epoch, a, last);
    }
    assert !StopsAt(w, plan, true, n - 1);
    TookAll(w, plan[..n - 1]);
    SameConfig(w, u, gone - {last});
    EstimateIsOccupied(u.state);
    assert Took(w, u, gone - {last});
  }

  // Within budget a cycle takes exactly the stale keys below the floor; over budget the lightest below
  // it, and no more than make the graph fit.
  lemma PrunedIsCycle(w: World, epoch: u64)
    ensures Cycled(w, Pruned(w, epoch), epoch)
  {
    hide Candidates, Ordered, Elements, Estimate, Occupied, OverBudget, NoDup, AllRemoved, Took, Pressed, IsFloor, Stale, BelowFloor;
    var floor, plan := RankFloor(w.state.particles, w.config.rankFloorPct), Ordered(Candidates(w, epoch));
    var n := Cut(w, plan, OverBudget(w), 0);
    var gone := Elements(plan[..n]);
    FloorIsFloor(w.state.particles, w.config.rankFloorPct);
    OrderedFacts(Candidates(w, epoch));
    PrefixNoDup(plan, n);
    TookAll(w, plan[..n]);
    StaleCandidates(w, epoch);
    if OverBudget(w) {
      Pressing(w, epoch);
    } else {
      WithinBudget(w, plan);
    }
    assert TookRight(w, Pruned(w, epoch), epoch, floor, gone);
  }

  lemma NeverStops(w: World, plan: seq<Key>, n: nat)
    requires n <= |plan|
    ensures !StopsAt(w, plan, false, n)
  {
  }

  lemma WithinBudget(w: World, plan: seq<Key>)
    ensures Cut(w, plan, false, 0) == |plan|
  {
    CutIsShortest(w, plan, false, 0);
    NeverStops(w, plan, Cut(w, plan, false, 0));
  }

  // A cycle moves no block boundary.
  lemma CycleKeeps(w: World, v: World, epoch: u64)
    requires Cycled(w, v, epoch)
    ensures v == w.(state := v.state, touched := v.touched)
    ensures v.state == w.state.(particles := v.state.particles, edges := v.state.edges, axonsOut := v.state.axonsOut, axonsIn := v.state.axonsIn)
  {
    hide IsFloor, Pressed, Stale, BelowFloor, Thinned;
  }
}
