// Closed forms of what a signal does to the graph: what is spent and committed, weights, energies,
// focus and balances, the lists and edges, and what is touched. Everything else stays.
module Effects {
  import opened Wrappers
  import opened Bytes
  import opened Integers
  import opened Records
  import opened Axons
  import opened Graph

  function Capped(n: nat): u64 { if n < U64_BOUND then n else U64_BOUND - 1 }

  function TotalAmount(links: seq<Link>): nat
  {
    if links == [] then 0 else TotalAmount(links[..|links| - 1]) + links[|links| - 1].amount
  }

  // The conviction the links put on one axon.
  function AxonAmount(h: Hashes, links: seq<Link>, axon: Key): nat
  {
    if links == [] then 0
    else
      var l := links[|links| - 1];
      AxonAmount(h, links[..|links| - 1], axon) + if h.axonId(l.from, l.to) == axon then l.amount else 0
  }

  // The conviction that arrives at one particle.
  function TargetAmount(links: seq<Link>, particle: Key): nat
  {
    if links == [] then 0
    else
      var l := links[|links| - 1];
      TargetAmount(links[..|links| - 1], particle) + if l.to == particle then l.amount else 0
  }

  lemma LinkParticle(h: Hashes, s: State, neuron: Key, l: Link, k: Key)
    ensures var p, q := ParticleOr0(s, k), ParticleOr0(Linked(h, s, neuron, l), k);
            q == p.(weight := SatAdd(p.weight, if h.axonId(l.from, l.to) == k then l.amount else 0),
                    energy := SatAdd(p.energy, if l.to == k then l.amount else 0))
  {
    hide AddAxon;
    if l.amount > 0 {
      var w := Wired(h, s, l);
      var e := Energised(Weighed(h, w, l), l);
      assert Focused(e, neuron, l).particles == e.particles;
      assert Linked(h, s, neuron, l).particles == e.particles;
      assert ParticleOr0(w, k) == ParticleOr0(s, k);
    }
  }

  // After a signal a particle weighs what it did plus everything its axon was given, and has its
  // energy plus everything sent to it, each capped at the width; its other scores are untouched.
  lemma {:induction false} ParticleAfter(h: Hashes, s: State, neuron: Key, links: seq<Link>, k: Key)
    ensures var p := ParticleOr0(s, k);
            ParticleOr0(AllLinked(h, s, neuron, links), k) ==
              p.(weight := Capped(p.weight + AxonAmount(h, links, k)), energy := Capped(p.energy + TargetAmount(links, k)))
  {
    hide Linked;
    if links != [] {
      ParticleAfter(h, s, neuron, links[..|links| - 1], k);
      LinkParticle(h, AllLinked(h, s, neuron, links[..|links| - 1]), neuron, links[|links| - 1], k);
    }
  }

  lemma LinkNeurons(h: Hashes, s: State, neuron: Key, l: Link)
    ensures var t := Linked(h, s, neuron, l);
            t.neurons == if neuron in s.neurons
                         then s.neurons[neuron := s.neurons[neuron].(focus := SatSub(s.neurons[neuron].focus, l.amount))]
                         else s.neurons
  {
    hide AddAxon;
    if l.amount == 0 && neuron in s.neurons {
      assert s.neurons[neuron].(focus := SatSub(s.neurons[neuron].focus, 0)) == s.neurons[neuron];
      assert s.neurons == s.neurons[neuron := s.neurons[neuron]];
    }
  }

  // A signal spends its neuron's focus, down to zero, and touches no other neuron.
  lemma {:induction false} FocusAfter(h: Hashes, s: State, neuron: Key, links: seq<Link>)
    ensures var t := AllLinked(h, s, neuron, links);
            t.neurons == if neuron in s.neurons
                         then s.neurons[neuron := s.neurons[neuron].(focus :=
                                if s.neurons[neuron].focus >= TotalAmount(links) then s.neurons[neuron].focus - TotalAmount(links) else 0)]
                         else s.neurons
  {
    hide Linked;
    if links == [] {
      if neuron in s.neurons {
        assert s.neurons == s.neurons[neuron := s.neurons[neuron]];
      }
    } else {
      FocusAfter(h, s, neuron, links[..|links| - 1]);
      LinkNeurons(h, AllLinked(h, s, neuron, links[..|links| - 1]), neuron, links[|links| - 1]);
    }
  }

  // The tables a link writes, part by part.
  lemma ConvictionParts(h: Hashes, s: State, neuron: Key, l: Link)
    ensures var t := Focused(Energised(Weighed(h, s, l), l), neuron, l);
            t == s.(particles := t.particles, neurons := t.neurons) && t.particles.Keys == s.particles.Keys + {h.axonId(l.from, l.to), l.to}
  {
  }

  lemma TransferParts(h: Hashes, s: State, l: Link)
    ensures var t := Debited(h, Credited(h, s, l), l); t == s.(balances := t.balances)
  {
  }

  lemma LinkParts(h: Hashes, s: State, neuron: Key, l: Link)
    ensures var t, w := Linked(h, s, neuron, l), Wired(h, s, l);
            && t == w.(particles := t.particles, neurons := t.neurons, balances := t.balances)
            && t.particles.Keys == if l.amount == 0 then s.particles.Keys else s.particles.Keys + {h.axonId(l.from, l.to), l.to}
  {
    hide Weighed, Energised, Focused, Credited, Debited, AddAxon;
    var w := Wired(h, s, l);
    if l.amount > 0 {
      ConvictionParts(h, w, neuron, l);
      TransferParts(h, Focused(Energised(Weighed(h, w, l), l), neuron, l), l);
    }
  }

  // Conviction leaves a row for the axon and one for the target; nothing else makes a particle.
  predicate Convicts(h: Hashes, l: Link, k: Key)
  {
    l.amount > 0 && (h.axonId(l.from, l.to) == k || l.to == k)
  }

  ghost predicate ParticlesAfter(h: Hashes, s: State, t: State, links: seq<Link>)
  {
    forall k ::
      && (k in t.particles <==> k in s.particles || exists i :: 0 <= i < |links| && Convicts(h, links[i], k))
      && ParticleOr0(t, k) == ParticleOr0(s, k).(weight := Capped(ParticleOr0(s, k).weight + AxonAmount(h, links, k)),
                                                 energy := Capped(ParticleOr0(s, k).energy + TargetAmount(links, k)))
  }

  lemma LinkRows(h: Hashes, s: State, neuron: Key, l: Link, k: Key)
    ensures k in Linked(h, s, neuron, l).particles <==> k in s.particles || Convicts(h, l, k)
  {
    hide Linked, Wired;
    LinkParts(h, s, neuron, l);
  }

  lemma {:induction false} RowsAfter(h: Hashes, s: State, neuron: Key, links: seq<Link>, k: Key)
    ensures k in AllLinked(h, s, neuron, links).particles <==> k in s.particles || exists i :: 0 <= i < |links| && Convicts(h, links[i], k)
  {
    hide Linked, Convicts;
    if links != [] {
      var n := |links| - 1;
      RowsAfter(h, s, neuron, links[..n], k);
      LinkRows(h, AllLinked(h, s, neuron, links[..n]), neuron, links[n], k);
      assert forall i :: 0 <= i < n ==> links[..n][i] == links[i];
    }
  }

  lemma LinksParticles(h: Hashes, s: State, neuron: Key, links: seq<Link>)
    ensures ParticlesAfter(h, s, AllLinked(h, s, neuron, links), links)
  {
    hide AllLinked, Convicts;
    forall k
      ensures k in AllLinked(h, s, neuron, links).particles <==> k in s.particles || exists i :: 0 <= i < |links| && Convicts(h, links[i], k)
      ensures ParticleOr0(AllLinked(h, s, neuron, links), k) ==
              ParticleOr0(s, k).(weight := Capped(ParticleOr0(s, k).weight + AxonAmount(h, links, k)),
                                 energy := Capped(ParticleOr0(s, k).energy + TargetAmount(links, k)))
    {
      RowsAfter(h, s, neuron, links, k);
      ParticleAfter(h, s, neuron, links, k);
    }
  }

  // ---------------------------------------------------------------- balances

  // One balance through the links: credited as target, capped, then debited as source, down to zero.
  function BalanceAfter(h: Hashes, b: u64, links: seq<Link>, k: Key): u64
  {
    if links == [] then b
    else
      var l := links[|links| - 1];
      var before := BalanceAfter(h, b, links[..|links| - 1], k);
      var credited := if h.balanceKey(l.to, l.token) == k then Capped(before + l.amount) else before;
      if h.balanceKey(l.from, l.token) != k then credited else if credited >= l.amount then credited - l.amount else 0
  }

  // A balance row is never zero.
  ghost predicate Positive(s: State)
  {
    forall k :: k in s.balances ==> s.balances[k] > 0
  }

  ghost predicate BalancesAfter(h: Hashes, s: State, t: State, links: seq<Link>)
  {
    (forall k :: BalanceOr0(t, k) == BalanceAfter(h, BalanceOr0(s, k), links, k)) && (Positive(s) ==> Positive(t))
  }

  lemma LinkBalance(h: Hashes, s: State, neuron: Key, l: Link, k: Key)
    ensures var credited := if h.balanceKey(l.to, l.token) == k then Capped(BalanceOr0(s, k) + l.amount) else BalanceOr0(s, k);
            BalanceOr0(Linked(h, s, neuron, l), k) ==
              if h.balanceKey(l.from, l.token) != k then credited else if credited >= l.amount then credited - l.amount else 0
    ensures Positive(s) ==> Positive(Linked(h, s, neuron, l))
  {
    hide Wired, Weighed, Energised, Focused;
    var t := Focused(Energised(Weighed(h, Wired(h, s, l), l), l), neuron, l);
    SameBalanceRows(h, s, neuron, l);
    assert l.amount > 0 ==> Linked(h, s, neuron, l) == Debited(h, Credited(h, t, l), l);
  }

  lemma SameBalanceRows(h: Hashes, s: State, neuron: Key, l: Link)
    ensures Wired(h, s, l).balances == s.balances
    ensures Focused(Energised(Weighed(h, Wired(h, s, l), l), l), neuron, l).balances == s.balances
  {
  }

  lemma {:induction false} LinksBalance(h: Hashes, s: State, neuron: Key, links: seq<Link>, k: Key)
    ensures BalanceOr0(AllLinked(h, s, neuron, links), k) == BalanceAfter(h, BalanceOr0(s, k), links, k)
    ensures Positive(s) ==> Positive(AllLinked(h, s, neuron, links))
  {
    hide Linked, Positive, BalanceOr0;
    if links != [] {
      LinksBalance(h, s, neuron, links[..|links| - 1], k);
      LinkBalance(h, AllLinked(h, s, neuron, links[..|links| - 1]), neuron, links[|links| - 1], k);
    }
  }

  lemma AllPositive(h: Hashes, s: State, neuron: Key, links: seq<Link>)
    ensures Positive(s) ==> Positive(AllLinked(h, s, neuron, links))
  {
    LinksBalance(h, s, neuron, links, neuron);
  }

  lemma LinksBalances(h: Hashes, s: State, neuron: Key, links: seq<Link>)
    ensures BalancesAfter(h, s, AllLinked(h, s, neuron, links), links)
  {
    hide AllLinked, Positive, BalanceOr0, BalanceAfter;
    AllPositive(h, s, neuron, links);
    forall k
      ensures BalanceOr0(AllLinked(h, s, neuron, links), k) == BalanceAfter(h, BalanceOr0(s, k), links, k)
    {
      LinksBalance(h, s, neuron, links, k);
    }
  }

  // ---------------------------------------------------------------- topology

  // The axons of the links that leave p, in order; and of those that enter it.
  function Leaving(h: Hashes, links: seq<Link>, p: Key): seq<Key>
  {
    if links == [] then []
    else
      var l := links[|links| - 1];
      Leaving(h, links[..|links| - 1], p) + if l.from == p then [h.axonId(l.from, l.to)] else []
  }

  function Entering(h: Hashes, links: seq<Link>, p: Key): seq<Key>
  {
    if links == [] then []
    else
      var l := links[|links| - 1];
      Entering(h, links[..|links| - 1], p) + if l.to == p then [h.axonId(l.from, l.to)] else []
  }

  function ListOf(lists: Lists, p: Key): seq<Key>
  {
    if p in lists then lists[p] else []
  }

  // A list grows at its end, by what it does not hold yet.
  ghost predicate Grown(before: Lists, after: Lists, p: Key, more: seq<Key>)
  {
    && (p in after <==> p in before || more != [])
    && (NoDup(ListOf(before, p)) ==> FirstPlaces(ListOf(before, p) + more, ListOf(after, p)))
  }

  lemma PlacesPush(list: seq<Key>, kept: seq<Key>, a: Key)
    requires FirstPlaces(list, kept)
    ensures FirstPlaces(list + [a], if a in kept then kept else kept + [a])
  {
    var longer, now := list + [a], if a in kept then kept else kept + [a];
    forall x
      ensures x in now <==> x in longer
    {
    }
    forall x, y, j | 0 <= x < y < |now| && 0 <= j < |longer| && longer[j] == now[y]
      ensures now[x] in longer[..j]
    {
      assert now[x] == kept[x] && kept[x] in kept;
      if j < |list| {
        assert longer[..j] == list[..j] && list[j] == now[y];
        assert y < |kept| by {
          assert now[y] in list;
        }
      } else {
        assert longer[..j] == list;
      }
    }
  }

  lemma AddGrows(before: Lists, lists: Lists, p: Key, more: seq<Key>, q: Key, a: Key)
    requires Grown(before, lists, p, more)
    ensures Grown(before, AddAxon(lists, q, a), p, if q == p then more + [a] else more)
  {
    hide FirstPlaces, NoDup;
    if q == p && NoDup(ListOf(before, p)) {
      PlacesPush(ListOf(before, p) + more, ListOf(lists, p), a);
      assert ListOf(before, p) + more + [a] == ListOf(before, p) + (more + [a]);
    }
  }

  lemma LinkLists(h: Hashes, s: State, neuron: Key, l: Link)
    ensures var t, axon := Linked(h, s, neuron, l), h.axonId(l.from, l.to);
            && t.axonsOut == AddAxon(s.axonsOut, l.from, axon) && t.axonsIn == AddAxon(s.axonsIn, l.to, axon)
            && t.edges == if axon in s.edges then s.edges else s.edges[axon := (l.from, l.to)]
  {
    hide Linked, AddAxon;
    LinkParts(h, s, neuron, l);
  }

  ghost predicate ListsAfter(h: Hashes, s: State, t: State, links: seq<Link>)
  {
    forall p ::
      && Grown(s.axonsOut, t.axonsOut, p, Leaving(h, links, p))
      && Grown(s.axonsIn, t.axonsIn, p, Entering(h, links, p))
  }

  lemma {:induction false} LinksLists(h: Hashes, s: State, neuron: Key, links: seq<Link>)
    ensures ListsAfter(h, s, AllLinked(h, s, neuron, links), links)
  {
    hide Linked, Grown, AddAxon;
    if links == [] {
      forall p
        ensures Grown(s.axonsOut, s.axonsOut, p, []) && Grown(s.axonsIn, s.axonsIn, p, [])
      {
        NothingGrown(s.axonsOut, p);
        NothingGrown(s.axonsIn, p);
      }
    } else {
      var n := |links| - 1;
      var before, l := AllLinked(h, s, neuron, links[..n]), links[n];
      LinksLists(h, s, neuron, links[..n]);
      LinkLists(h, before, neuron, l);
      var axon := h.axonId(l.from, l.to);
      forall p
        ensures Grown(s.axonsOut, AddAxon(before.axonsOut, l.from, axon), p, Leaving(h, links, p))
        ensures Grown(s.axonsIn, AddAxon(before.axonsIn, l.to, axon), p, Entering(h, links, p))
      {
        AddGrows(s.axonsOut, before.axonsOut, p, Leaving(h, links[..n], p), l.from, axon);
        AddGrows(s.axonsIn, before.axonsIn, p, Entering(h, links[..n], p), l.to, axon);
        assert Leaving(h, links[..n], p) + [] == Leaving(h, links[..n], p);
        assert Entering(h, links[..n], p) + [] == Entering(h, links[..n], p);
      }
    }
  }

  lemma NothingGrown(lists: Lists, p: Key)
    ensures Grown(lists, lists, p, [])
  {
    assert ListOf(lists, p) + [] == ListOf(lists, p);
  }

  predicate Joins(h: Hashes, l: Link, axon: Key)
  {
    h.axonId(l.from, l.to) == axon
  }

  ghost predicate Joined(h: Hashes, links: seq<Link>, axon: Key)
  {
    exists i :: 0 <= i < |links| && Joins(h, links[i], axon)
  }

  ghost predicate FirstJoin(h: Hashes, links: seq<Link>, i: nat, axon: Key)
  {
    i < |links| && Joins(h, links[i], axon) && forall j :: 0 <= j < i ==> !Joins(h, links[j], axon)
  }

  lemma JoinPushed(h: Hashes, links: seq<Link>, axon: Key)
    requires links != []
    ensures var n := |links| - 1;
            && (Joined(h, links, axon) <==> Joined(h, links[..n], axon) || Joins(h, links[n], axon))
            && (FirstJoin(h, links, n, axon) <==> !Joined(h, links[..n], axon) && Joins(h, links[n], axon))
            && forall i: nat :: i < n ==> FirstJoin(h, links, i, axon) == FirstJoin(h, links[..n], i, axon)
  {
    hide Joins;
    var n := |links| - 1;
    assert forall i :: 0 <= i < n ==> links[..n][i] == links[i];
    if Joined(h, links[..n], axon) {
      var i :| 0 <= i < n && Joins(h, links[..n][i], axon);
      assert Joins(h, links[i], axon);
    }
  }

  // An edge is recorded by the first link of its axon and stays.
  ghost predicate EdgesAfter(h: Hashes, s: State, t: State, links: seq<Link>)
  {
    && (forall a :: a in t.edges <==> a in s.edges || Joined(h, links, a))
    && (forall a :: a in s.edges ==> t.edges[a] == s.edges[a])
    && forall i: nat, a :: FirstJoin(h, links, i, a) && a !in s.edges ==>
         i < |links| && a in t.edges && t.edges[a] == (links[i].from, links[i].to)
  }

  lemma {:induction false} LinksEdges(h: Hashes, s: State, neuron: Key, links: seq<Link>)
    ensures EdgesAfter(h, s, AllLinked(h, s, neuron, links), links)
  {
    hide Linked, EdgesAfter;
    if links == [] {
      NoEdges(h, s);
    } else {
      var n := |links| - 1;
      var before := AllLinked(h, s, neuron, links[..n]);
      LinksEdges(h, s, neuron, links[..n]);
      LinkLists(h, before, neuron, links[n]);
      EdgePushed(h, s, before, AllLinked(h, s, neuron, links), links);
    }
  }

  lemma NoEdges(h: Hashes, s: State)
    ensures EdgesAfter(h, s, s, [])
  {
  }

  lemma EdgePushed(h: Hashes, s: State, b: State, t: State, links: seq<Link>)
    requires links != [] && EdgesAfter(h, s, b, links[..|links| - 1])
    requires var l := links[|links| - 1];
             t.edges == if h.axonId(l.from, l.to) in b.edges then b.edges else b.edges[h.axonId(l.from, l.to) := (l.from, l.to)]
    ensures EdgesAfter(h, s, t, links)
  {
    hide Joined, FirstJoin;
    var n := |links| - 1;
    forall a
      ensures a in t.edges <==> a in s.edges || Joined(h, links, a)
    {
      JoinPushed(h, links, a);
    }
    forall i: nat, a | FirstJoin(h, links, i, a) && a !in s.edges
      ensures i < |links| && a in t.edges && t.edges[a] == (links[i].from, links[i].to)
    {
      JoinPushed(h, links, a);
      FirstIn(h, links, i, a);
      assert i < n ==> links[..n][i] == links[i];
    }
  }

  lemma FirstIn(h: Hashes, links: seq<Link>, i: nat, a: Key)
    requires FirstJoin(h, links, i, a)
    ensures i < |links| && Joined(h, links, a)
  {
  }

  // ---------------------------------------------------------------- moves and touches

  ghost function Nullifiers(moves: seq<BoxMove>): set<Key>
  {
    set i | 0 <= i < |moves| :: moves[i].nullifier
  }

  predicate Commits(mv: BoxMove, point: Key)
  {
    mv.commitment.Some? && mv.commitment.value.0 == point
  }

  ghost predicate Committing(moves: seq<BoxMove>, point: Key)
  {
    exists i :: 0 <= i < |moves| && Commits(moves[i], point)
  }

  ghost predicate LastCommit(moves: seq<BoxMove>, i: nat, point: Key)
  {
    i < |moves| && Commits(moves[i], point) && forall j :: i < j < |moves| ==> !Commits(moves[j], point)
  }

  lemma CommitsPushed(moves: seq<BoxMove>, point: Key)
    requires moves != []
    ensures var n := |moves| - 1;
            && (Committing(moves, point) <==> Committing(moves[..n], point) || Commits(moves[n], point))
            && (LastCommit(moves, n, point) <==> Commits(moves[n], point))
            && forall i: nat :: i < n ==> (LastCommit(moves, i, point) <==> LastCommit(moves[..n], i, point) && !Commits(moves[n], point))
  {
    hide Commits;
    var n := |moves| - 1;
    assert forall i :: 0 <= i < n ==> moves[..n][i] == moves[i];
    if Committing(moves[..n], point) {
      var i :| 0 <= i < n && Commits(moves[..n][i], point);
      assert Commits(moves[i], point);
    }
  }

  // At each point stands the value of the last move that names it, as a field element.
  ghost predicate CommitmentsAfter(before: map<Key, felt>, after: map<Key, felt>, moves: seq<BoxMove>)
  {
    && (forall p :: p in after <==> p in before || Committing(moves, p))
    && (forall p :: p in before && !Committing(moves, p) ==> after[p] == before[p])
    && forall i: nat, p :: LastCommit(moves, i, p) ==>
         i < |moves| && p in after && moves[i].commitment.Some? && after[p] == moves[i].commitment.value.1 % FIELD
  }

  lemma {:induction false} MovesAfter(s: State, moves: seq<BoxMove>)
    ensures var t := AllMoved(s, moves);
            && t.nullifiers == s.nullifiers + Nullifiers(moves) && CommitmentsAfter(s.commitments, t.commitments, moves)
            && t == s.(nullifiers := t.nullifiers, commitments := t.commitments)
  {
    hide Moved, CommitmentsAfter, Nullifiers;
    if moves == [] {
      NoMoves(s);
    } else {
      var n := |moves| - 1;
      MovesAfter(s, moves[..n]);
      MoveParts(AllMoved(s, moves[..n]), moves[n]);
      NullifiersPush(moves);
      CommitmentPushed(s.commitments, AllMoved(s, moves[..n]).commitments, AllMoved(s, moves).commitments, moves);
    }
  }

  lemma MoveParts(s: State, mv: BoxMove)
    ensures var t := Moved(s, mv);
            && t.nullifiers == s.nullifiers + {mv.nullifier}
            && t.commitments == (match mv.commitment case None => s.commitments case Some((point, value)) => s.commitments[point := value % FIELD])
            && t == s.(nullifiers := t.nullifiers, commitments := t.commitments)
  {
    if mv.commitment.Some? {
      var (point, value) := mv.commitment.value;
      assert Moved(s, mv) == s.(nullifiers := s.nullifiers + {mv.nullifier}, commitments := s.commitments[point := value % FIELD]);
    } else {
      assert Moved(s, mv) == s.(nullifiers := s.nullifiers + {mv.nullifier}, commitments := s.commitments);
    }
  }

  lemma NoMoves(s: State)
    ensures Nullifiers([]) == {} && CommitmentsAfter(s.commitments, s.commitments, [])
  {
  }

  lemma NullifiersPush(moves: seq<BoxMove>)
    requires moves != []
    ensures Nullifiers(moves) == Nullifiers(moves[..|moves| - 1]) + {moves[|moves| - 1].nullifier}
  {
    var n := |moves| - 1;
    forall k
      ensures k in Nullifiers(moves) <==> k in Nullifiers(moves[..n]) + {moves[n].nullifier}
    {
      if k in Nullifiers(moves) {
        var i :| 0 <= i < |moves| && moves[i].nullifier == k;
        assert i < n ==> moves[..n][i] == moves[i];
      }
      if k in Nullifiers(moves[..n]) {
        var i :| 0 <= i < n && moves[..n][i].nullifier == k;
        assert moves[i].nullifier == k;
      }
    }
  }

  lemma CommitmentPushed(s: map<Key, felt>, b: map<Key, felt>, t: map<Key, felt>, moves: seq<BoxMove>)
    requires moves != [] && CommitmentsAfter(s, b, moves[..|moves| - 1])
    requires var mv := moves[|moves| - 1];
             t == match mv.commitment case None => b case Some((point, value)) => b[point := value % FIELD]
    ensures CommitmentsAfter(s, t, moves)
  {
    hide Committing, LastCommit;
    var n := |moves| - 1;
    forall p
      ensures p in t <==> p in s || Committing(moves, p)
      ensures p in s && !Committing(moves, p) ==> t[p] == s[p]
    {
      CommitsPushed(moves, p);
    }
    forall i: nat, p | LastCommit(moves, i, p)
      ensures i < |moves| && p in t && moves[i].commitment.Some? && t[p] == moves[i].commitment.value.1 % FIELD
    {
      CommitsPushed(moves, p);
      LastIn(moves, i, p);
      assert i < n ==> moves[..n][i] == moves[i];
    }
  }

  lemma LastIn(moves: seq<BoxMove>, i: nat, p: Key)
    requires LastCommit(moves, i, p)
    ensures i < |moves| && moves[i].commitment.Some?
  {
  }

  // Every linked axon is touched at this epoch, and no other key.
  ghost predicate TouchesAfter(h: Hashes, before: map<Key, u64>, after: map<Key, u64>, links: seq<Link>, epoch: u64)
  {
    forall a ::
      && (a in after <==> a in before || Joined(h, links, a))
      && (a in after ==> after[a] == if Joined(h, links, a) then epoch else before[a])
  }

  lemma {:induction false} LinksTouch(h: Hashes, before: map<Key, u64>, links: seq<Link>, epoch: u64)
    ensures TouchesAfter(h, before, AllTouched(h, before, links, epoch), links, epoch)
  {
    if links != [] {
      var n := |links| - 1;
      LinksTouch(h, before, links[..n], epoch);
      var after := AllTouched(h, before, links, epoch);
      forall a
        ensures a in after <==> a in before || Joined(h, links, a)
        ensures a in after ==> after[a] == if Joined(h, links, a) then epoch else before[a]
      {
        JoinPushed(h, links, a);
      }
    }
  }

  // ---------------------------------------------------------------- a whole signal

  // Everything a signal does, table by table.
  ghost predicate Effected(h: Hashes, w: World, v: World, sig: Signal)
  {
    var s, t := w.state, v.state;
    && t.nullifiers == s.nullifiers + Nullifiers(sig.moves) && CommitmentsAfter(s.commitments, t.commitments, sig.moves)
    && ParticlesAfter(h, s, t, sig.links) && BalancesAfter(h, s, t, sig.links)
    && t.neurons == SpendFocus(s.neurons, sig.neuron, TotalAmount(sig.links))
    && ListsAfter(h, s, t, sig.links) && EdgesAfter(h, s, t, sig.links)
    && TouchesAfter(h, w.touched, v.touched, sig.links, s.height / 100)
    && t.time == s.time && t.signals == s.signals && t.intents == s.intents && t.fixed == s.fixed && t.height == s.height
    && v.checkpoint == w.checkpoint && v.config == w.config
  }

  // The neuron's focus, less an amount or down to zero.
  function SpendFocus(neurons: map<Key, NeuronRecord>, neuron: Key, amount: nat): map<Key, NeuronRecord>
  {
    if neuron !in neurons then neurons
    else
      var n := neurons[neuron];
      neurons[neuron := n.(focus := if n.focus >= amount then n.focus - amount else 0)]
  }

  lemma LinkAside(h: Hashes, s: State, neuron: Key, l: Link)
    ensures Aside(s, Linked(h, s, neuron, l))
  {
    hide Linked, AddAxon;
    LinkParts(h, s, neuron, l);
  }

  // The tables no link writes.
  ghost predicate Aside(s: State, t: State)
  {
    && t.nullifiers == s.nullifiers && t.commitments == s.commitments && t.time == s.time && t.signals == s.signals
    && t.intents == s.intents && t.fixed == s.fixed && t.height == s.height
  }

  lemma {:induction false} LinksAside(h: Hashes, s: State, neuron: Key, links: seq<Link>)
    ensures Aside(s, AllLinked(h, s, neuron, links))
  {
    hide Linked;
    if links != [] {
      LinksAside(h, s, neuron, links[..|links| - 1]);
      LinkAside(h, AllLinked(h, s, neuron, links[..|links| - 1]), neuron, links[|links| - 1]);
    }
  }

  lemma InsertedEffects(h: Hashes, w: World, sig: Signal)
    ensures Effected(h, w, Inserted(h, w, sig), sig)
  {
    hide AllMoved, AllLinked, AllTouched, CommitmentsAfter, ParticlesAfter, BalancesAfter, ListsAfter, EdgesAfter, TouchesAfter, Nullifiers;
    var s, m := w.state, AllMoved(w.state, sig.moves);
    MovesAfter(s, sig.moves);
    LinksParticles(h, m, sig.neuron, sig.links);
    LinksBalances(h, m, sig.neuron, sig.links);
    FocusAfter(h, m, sig.neuron, sig.links);
    LinksLists(h, m, sig.neuron, sig.links);
    LinksEdges(h, m, sig.neuron, sig.links);
    LinksAside(h, m, sig.neuron, sig.links);
    LinksTouch(h, w.touched, sig.links, Epoch(s));
    SameStart(h, s, m, AllLinked(h, m, sig.neuron, sig.links), sig.links);
  }

  // The links do not see the moves.
  lemma SameStart(h: Hashes, s: State, m: State, t: State, links: seq<Link>)
    requires m == s.(nullifiers := m.nullifiers, commitments := m.commitments)
    requires ParticlesAfter(h, m, t, links) && BalancesAfter(h, m, t, links) && ListsAfter(h, m, t, links) && EdgesAfter(h, m, t, links)
    ensures ParticlesAfter(h, s, t, links) && BalancesAfter(h, s, t, links) && ListsAfter(h, s, t, links) && EdgesAfter(h, s, t, links)
  {
    hide Grown, BalanceAfter, AxonAmount, TargetAmount, Joined, FirstJoin, Convicts;
    forall k
      ensures ParticleOr0(m, k) == ParticleOr0(s, k) && BalanceOr0(m, k) == BalanceOr0(s, k)
    {
    }
  }
}
