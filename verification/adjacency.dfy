// The adjacency indexes and the reverse edge map tell one story, over whole runs.
module Adjacency {
  import opened Wrappers
  import opened Bytes
  import opened Integers
  import opened Records
  import opened Axons
  import opened Graph
  import opened Pruning
  import opened Blocks

  // a is listed under p just when its edge ends there.
  ghost predicate Indexes(lists: Lists, ends: map<Key, Key>)
  {
    forall p, a :: p in lists && a in lists[p] <==> a in ends && ends[a] == p
  }

  // Lists are nonempty and without duplicates.
  ghost predicate ListsOk(lists: Lists)
  {
    forall p :: p in lists ==> lists[p] != [] && NoDup(lists[p])
  }

  ghost function Sources(edges: map<Key, (Key, Key)>): map<Key, Key>
  {
    map a | a in edges :: edges[a].0
  }

  ghost function Targets(edges: map<Key, (Key, Key)>): map<Key, Key>
  {
    map a | a in edges :: edges[a].1
  }

  type Ends = (Key, Key)

  // axonId tells these pairs of particles apart.
  ghost predicate Apart(h: Hashes, pairs: set<Ends>)
  {
    forall x, y :: x in pairs && y in pairs && h.axonId(x.0, x.1) == h.axonId(y.0, y.1) ==> x == y
  }

  ghost predicate Within(edges: map<Key, Ends>, pairs: set<Ends>)
  {
    forall a :: a in edges ==> edges[a] in pairs
  }

  ghost predicate Consistent(h: Hashes, s: State)
  {
    && Indexes(s.axonsOut, Sources(s.edges)) && Indexes(s.axonsIn, Targets(s.edges))
    && ListsOk(s.axonsOut) && ListsOk(s.axonsIn)
    && EdgesHashed(h, s.edges)
  }

  ghost predicate EdgesHashed(h: Hashes, edges: map<Key, (Key, Key)>)
  {
    forall a :: a in edges ==> a == h.axonId(edges[a].0, edges[a].1)
  }

  lemma AddKeeps(lists: Lists, ends: map<Key, Key>, p: Key, a: Key)
    requires Indexes(lists, ends) && ListsOk(lists) && (a in ends ==> ends[a] == p)
    ensures Indexes(AddAxon(lists, p, a), ends[a := p]) && ListsOk(AddAxon(lists, p, a))
  {
    var out := AddAxon(lists, p, a);
    forall q, x
      ensures q in out && x in out[q] <==> x in ends[a := p] && ends[a := p][x] == q
    {
      assert q in lists && x in lists[q] <==> x in ends && ends[x] == q;
      if q == p && q in lists && a !in lists[q] {
        assert x in lists[q] + [a] <==> x in lists[q] || x == a;
      }
    }
  }

  lemma DropKeeps(lists: Lists, ends: map<Key, Key>, p: Key, a: Key)
    requires Indexes(lists, ends) && ListsOk(lists) && a in ends && ends[a] == p
    ensures Indexes(DropAxon(lists, p, a), ends - {a}) && ListsOk(DropAxon(lists, p, a))
  {
    assert p in lists && a in lists[p];
    RetainNoDup(lists[p], a);
    var out := DropAxon(lists, p, a);
    forall q, x
      ensures q in out && x in out[q] <==> x in ends - {a} && (ends - {a})[x] == q
    {
      assert q in lists && x in lists[q] <==> x in ends && ends[x] == q;
    }
  }

  lemma EdgeOfAxon(h: Hashes, s: State, p: Key, q: Key, pairs: set<Ends>)
    requires Apart(h, pairs) && Within(s.edges, pairs) && (p, q) in pairs && Consistent(h, s)
    ensures h.axonId(p, q) in s.edges ==> s.edges[h.axonId(p, q)] == (p, q)
  {
    hide Indexes, ListsOk;
    var axon := h.axonId(p, q);
    if axon in s.edges {
      assert axon == h.axonId(s.edges[axon].0, s.edges[axon].1);
    }
  }

  lemma WiredEdges(h: Hashes, s: State, l: Link)
    requires EdgesHashed(h, s.edges)
    requires h.axonId(l.from, l.to) in s.edges ==> s.edges[h.axonId(l.from, l.to)] == (l.from, l.to)
    ensures var axon, t := h.axonId(l.from, l.to), Wired(h, s, l);
            Sources(t.edges) == Sources(s.edges)[axon := l.from] && Targets(t.edges) == Targets(s.edges)[axon := l.to]
            && EdgesHashed(h, t.edges)
  {
    hide AddAxon;
  }

  lemma WiredLists(h: Hashes, s: State, l: Link)
    ensures var axon := h.axonId(l.from, l.to);
            Wired(h, s, l).axonsOut == AddAxon(s.axonsOut, l.from, axon) && Wired(h, s, l).axonsIn == AddAxon(s.axonsIn, l.to, axon)
  {
  }

  lemma WiredWithin(h: Hashes, s: State, l: Link, pairs: set<Ends>)
    requires Within(s.edges, pairs) && (l.from, l.to) in pairs
    ensures Within(Wired(h, s, l).edges, pairs)
  {
    hide AddAxon;
  }

  lemma WiredKeeps(h: Hashes, s: State, l: Link, pairs: set<Ends>)
    requires Apart(h, pairs) && Within(s.edges, pairs) && (l.from, l.to) in pairs && Consistent(h, s)
    ensures Consistent(h, Wired(h, s, l)) && Within(Wired(h, s, l).edges, pairs)
  {
    hide Indexes, ListsOk, AddAxon, Apart, EdgesHashed, Within, Wired, Sources, Targets;
    var axon := h.axonId(l.from, l.to);
    WiredWithin(h, s, l, pairs);
    WiredLists(h, s, l);
    EdgeOfAxon(h, s, l.from, l.to, pairs);
    WiredEdges(h, s, l);
    SourcesAt(s.edges, axon);
    AddKeeps(s.axonsOut, Sources(s.edges), l.from, axon);
    AddKeeps(s.axonsIn, Targets(s.edges), l.to, axon);
  }

  lemma SourcesAt(edges: map<Key, Ends>, a: Key)
    ensures a in Sources(edges) <==> a in edges
    ensures a in Targets(edges) <==> a in edges
    ensures a in edges ==> Sources(edges)[a] == edges[a].0 && Targets(edges)[a] == edges[a].1
  {
  }

  lemma ConvictionKeepsTopology(h: Hashes, s: State, neuron: Key, l: Link)
    ensures SameTopology(s, Debited(h, Credited(h, Focused(Energised(Weighed(h, s, l), l), neuron, l), l), l))
  {
  }

  lemma LinkKeeps(h: Hashes, s: State, neuron: Key, l: Link, pairs: set<Ends>)
    requires Apart(h, pairs) && Within(s.edges, pairs) && (l.from, l.to) in pairs && Consistent(h, s)
    ensures Consistent(h, Linked(h, s, neuron, l)) && Within(Linked(h, s, neuron, l).edges, pairs)
  {
    hide Consistent, Apart, Wired, Within, Weighed, Energised, Focused, Credited, Debited;
    WiredKeeps(h, s, l, pairs);
    ConvictionKeepsTopology(h, Wired(h, s, l), neuron, l);
    TopologyConsistent(h, Wired(h, s, l), Linked(h, s, neuron, l));
  }

  ghost predicate LinksWithin(links: seq<Link>, pairs: set<Ends>)
  {
    forall i :: 0 <= i < |links| ==> (links[i].from, links[i].to) in pairs
  }

  lemma {:induction false} LinksKeep(h: Hashes, s: State, neuron: Key, links: seq<Link>, pairs: set<Ends>)
    requires Apart(h, pairs) && Within(s.edges, pairs) && LinksWithin(links, pairs) && Consistent(h, s)
    ensures Consistent(h, AllLinked(h, s, neuron, links)) && Within(AllLinked(h, s, neuron, links).edges, pairs)
  {
    hide Consistent, Apart, Within, Linked;
    if links != [] {
      LinksKeep(h, s, neuron, links[..|links| - 1], pairs);
      LinkKeeps(h, AllLinked(h, s, neuron, links[..|links| - 1]), neuron, links[|links| - 1], pairs);
    }
  }

  // Two states with one topology.
  ghost predicate SameTopology(s: State, t: State)
  {
    s.axonsOut == t.axonsOut && s.axonsIn == t.axonsIn && s.edges == t.edges
  }

  lemma {:induction false} MovesKeepTopology(s: State, moves: seq<BoxMove>)
    ensures SameTopology(s, AllMoved(s, moves))
  {
    if moves != [] {
      MovesKeepTopology(s, moves[..|moves| - 1]);
    }
  }

  lemma RemovalKeepsConsistent(h: Hashes, w: World, axon: Key)
    requires Consistent(h, w.state)
    ensures Consistent(h, Removed(w, axon).state)
    ensures forall pairs :: Within(w.state.edges, pairs) ==> Within(Removed(w, axon).state.edges, pairs)
  {
    hide Indexes, ListsOk, DropAxon;
    var s := w.state;
    if axon in s.edges {
      DropKeeps(s.axonsOut, Sources(s.edges), s.edges[axon].0, axon);
      DropKeeps(s.axonsIn, Targets(s.edges), s.edges[axon].1, axon);
      var t := Removed(w, axon).state;
      assert Sources(t.edges) == Sources(s.edges) - {axon};
      assert Targets(t.edges) == Targets(s.edges) - {axon};
    }
  }

  lemma {:induction false} RemovalsKeepConsistent(h: Hashes, w: World, plan: seq<Key>)
    requires Consistent(h, w.state)
    ensures Consistent(h, AllRemoved(w, plan).state)
    ensures forall pairs :: Within(w.state.edges, pairs) ==> Within(AllRemoved(w, plan).state.edges, pairs)
  {
    if plan != [] {
      RemovalsKeepConsistent(h, w, plan[..|plan| - 1]);
      RemovalKeepsConsistent(h, AllRemoved(w, plan[..|plan| - 1]), plan[|plan| - 1]);
    }
  }

  // ---------------------------------------------------------------- runs

  // The mutations of a Bbg. A rejected signal or a dropped preparation leaves it as it was.
  datatype Step =
    | Insert(sig: Signal)
    | Record(record: SignalRecord)
    | Intend(intent: IntentRecord)
    | Finalize

  ghost function After(h: Hashes, w: World, step: Step): World
  {
    match step
    case Insert(sig) => if Spent(w.state, sig.moves) then w else Inserted(h, w, sig)
    case Record(record) => Recorded(h, w, record)
    case Intend(i) => w.(state := w.state.(intents := w.state.intents[h.intentKey(i.neuron, i.h0, i.scopeHash) := i]))
    case Finalize => if w.state.height + 1 < U64_BOUND then Finalized(h, w) else w
  }

  ghost function Run(h: Hashes, w: World, steps: seq<Step>): World
  {
    if steps == [] then w else After(h, Run(h, w, steps[..|steps| - 1]), steps[|steps| - 1])
  }

  // The pairs a step links are among these.
  ghost predicate StepWithin(step: Step, pairs: set<Ends>)
  {
    step.Insert? ==> LinksWithin(step.sig.links, pairs)
  }

  lemma StepKeeps(h: Hashes, w: World, step: Step, pairs: set<Ends>)
    requires Apart(h, pairs) && StepWithin(step, pairs) && Within(w.state.edges, pairs) && Consistent(h, w.state)
    ensures Consistent(h, After(h, w, step).state) && Within(After(h, w, step).state.edges, pairs)
  {
    hide Consistent, Candidates, Ordered, Cut, Within, Apart, LinksWithin;
    match step
    case Insert(sig) =>
      MovesKeepTopology(w.state, sig.moves);
      TopologyConsistent(h, w.state, AllMoved(w.state, sig.moves));
      LinksKeep(h, AllMoved(w.state, sig.moves), sig.neuron, sig.links, pairs);
    case Record(record) =>
      TopologyConsistent(h, w.state, After(h, w, step).state);
    case Intend(_) =>
      TopologyConsistent(h, w.state, After(h, w, step).state);
    case Finalize =>
      if w.state.height + 1 < U64_BOUND {
        var t := Ticked(h, w);
        TopologyConsistent(h, w.state, t.state);
        var plan := Ordered(Candidates(t, Epoch(t.state)));
        RemovalsKeepConsistent(h, t, plan[..Cut(t, plan, OverBudget(t), 0)]);
      }
  }

  lemma TopologyConsistent(h: Hashes, s: State, t: State)
    requires SameTopology(s, t) && Consistent(h, s)
    ensures Consistent(h, t)
  {
  }

  // In every state a run reaches, a is listed under p in axonsOut just when its edge leaves p,
  // and under q in axonsIn just when its edge enters q; no list is empty or repeats an axon.
  // axonId need only tell the linked pairs apart.
  lemma {:induction false} RunKeeps(h: Hashes, w: World, steps: seq<Step>, pairs: set<Ends>)
    requires Apart(h, pairs) && (forall i :: 0 <= i < |steps| ==> StepWithin(steps[i], pairs))
    requires Within(w.state.edges, pairs) && Consistent(h, w.state)
    ensures Consistent(h, Run(h, w, steps).state) && Within(Run(h, w, steps).state.edges, pairs)
  {
    hide Consistent, Within, Apart, After, StepWithin;
    if steps != [] {
      RunKeeps(h, w, steps[..|steps| - 1], pairs);
      StepKeeps(h, Run(h, w, steps[..|steps| - 1]), steps[|steps| - 1], pairs);
    }
  }

  // Every listed axon is listed once on each side.
  lemma MirrorImages(h: Hashes, s: State, p: Key, q: Key, pairs: set<Ends>)
    requires Apart(h, pairs) && Within(s.edges, pairs) && (p, q) in pairs && Consistent(h, s)
    ensures var a := h.axonId(p, q);
            (p in s.axonsOut && a in s.axonsOut[p]) <==> (q in s.axonsIn && a in s.axonsIn[q])
  {
    hide Apart, ListsOk;
    var a := h.axonId(p, q);
    EdgeOfAxon(h, s, p, q, pairs);
    assert (p in s.axonsOut && a in s.axonsOut[p]) <==> (a in Sources(s.edges) && Sources(s.edges)[a] == p);
    assert (q in s.axonsIn && a in s.axonsIn[q]) <==> (a in Targets(s.edges) && Targets(s.edges)[a] == q);
  }
}
