// The pruning policy: rank floor, half-life candidacy, and gravity under size pressure.
module Pruning {
  import opened Wrappers
  import opened Bytes
  import opened Integers
  import opened Records
  import opened Axons
  import opened Graph
  import opened Sorting

  // ---------------------------------------------------------------- ordering by weight

  // Lighter first, ties in key order.
  predicate Before(ws: map<Key, u64>, a: Key, b: Key)
  {
    var u, v := if a in ws then ws[a] else 0, if b in ws then ws[b] else 0;
    u < v || (u == v && Lt(a, b))
  }

  function ByWeight(ws: map<Key, u64>): (Key, Key) -> bool
  {
    (a: Key, b: Key) => Before(ws, a, b)
  }

  lemma ByWeightTotal(ws: map<Key, u64>)
    ensures StrictTotal(ByWeight(ws))
  {
    hide Lt;
    forall a: Key, b: Key
      ensures Before(ws, a, b) ==> !Before(ws, b, a)
      ensures a == b || Before(ws, a, b) || Before(ws, b, a)
    {
      LtTotal(a, b);
    }
    forall a: Key, b: Key, c: Key | Before(ws, a, b) && Before(ws, b, c)
      ensures Before(ws, a, c)
    {
      if Lt(a, b) && Lt(b, c) {
        LtTrans(a, b, c);
      }
    }
  }

  // The keys of ws, lightest first.
  ghost function Ordered(ws: map<Key, u64>): (ks: seq<Key>)
  {
    ByWeightTotal(ws);
    Sorted(ByWeight(ws), ws.Keys)
  }

  ghost predicate Ascending(ws: map<Key, u64>, ks: seq<Key>)
  {
    (forall k :: k in ks ==> k in ws) && forall i, j :: 0 <= i < j < |ks| ==> ws[ks[i]] <= ws[ks[j]]
  }

  lemma OrderedFacts(ws: map<Key, u64>)
    ensures NoDup(Ordered(ws)) && Elements(Ordered(ws)) == ws.Keys && |Ordered(ws)| == |ws|
    ensures Ascending(ws, Ordered(ws))
  {
    hide Lt, Sorted;
    ByWeightTotal(ws);
    SortedFacts(ByWeight(ws), ws.Keys);
    var ks := Ordered(ws);
    forall i, j | 0 <= i < j < |ks|
      ensures ks[i] != ks[j] && ks[i] in ws && ks[j] in ws && ws[ks[i]] <= ws[ks[j]]
    {
      assert ks[i] in ks && ks[j] in ks && ByWeight(ws)(ks[i], ks[j]);
    }
  }

  method SortByWeight(ws: map<Key, u64>) returns (ks: seq<Key>)
    ensures ks == Ordered(ws)
  {
    ByWeightTotal(ws);
    ks := Sort(ByWeight(ws), ws.Keys);
  }

  // ---------------------------------------------------------------- the rank floor

  function PiStars(particles: map<Key, ParticleRecord>): map<Key, u64>
  {
    map k | k in particles :: particles[k].piStar
  }

  // ceil(n * pct / 100)
  function ProtectedCount(n: nat, pct: byte): nat
  {
    (n * pct + 99) / 100
  }

  // Entries with a smaller score than this may be pruned.
  ghost function RankFloor(particles: map<Key, ParticleRecord>, pct: byte): u64
  {
    if pct == 0 then U64_BOUND - 1
    else if particles == map[] then 0
    else
      var ks := Ordered(PiStars(particles));
      OrderedFacts(PiStars(particles));
      var n := |ks|;
      var boundary := if ProtectedCount(n, pct) <= n then n - ProtectedCount(n, pct) else 0;
      SomeProtected(n, pct);
      assert ks[boundary] in Elements(ks);
      PiStars(particles)[ks[boundary]]
  }

  lemma SomeProtected(n: nat, pct: byte)
    requires n > 0 && pct > 0
    ensures ProtectedCount(n, pct) > 0
    ensures pct <= 100 ==> ProtectedCount(n, pct) <= n
  {
    assert n * pct >= 1 by {
      MulPositive(n, pct);
    }
    if pct <= 100 {
      MulMonotone(n, pct, 100);
    }
  }

  lemma MulPositive(a: nat, b: nat)
    requires a > 0 && b > 0
    ensures a * b >= 1
  {
  }

  lemma MulMonotone(a: nat, b: nat, c: nat)
    requires b <= c
    ensures a * b <= a * c
  {
  }

  // The particles at or above the floor.
  ghost function AtFloor(particles: map<Key, ParticleRecord>, floor: u64): set<Key>
  {
    set k | k in particles && particles[k].piStar >= floor
  }

  lemma TopAtFloor(particles: map<Key, ParticleRecord>, ks: seq<Key>, boundary: nat)
    requires Ascending(PiStars(particles), ks) && NoDup(ks) && boundary < |ks|
    ensures |AtFloor(particles, PiStars(particles)[ks[boundary]])| >= |ks| - boundary
  {
    var top, floor := ks[boundary..], PiStars(particles)[ks[boundary]];
    NoDupSize(top);
    forall k | k in Elements(top)
      ensures k in AtFloor(particles, floor)
    {
      var i :| 0 <= i < |top| && top[i] == k;
      assert k == ks[boundary + i] && k in ks;
    }
    SubsetCount(Elements(top), AtFloor(particles, floor));
  }

  ghost function Above(particles: map<Key, ParticleRecord>, floor: u64): set<Key>
  {
    set k | k in particles && particles[k].piStar > floor
  }

  // The floor of a nonzero percentage is the score that at least the protected share of the particles
  // reach and less than that share exceed. Zero sets the largest u64.
  ghost predicate IsFloor(particles: map<Key, ParticleRecord>, pct: byte, floor: u64)
  {
    if pct == 0 then floor == 0xffff_ffff_ffff_ffff
    else if particles == map[] then floor == 0
    else
      var share := |particles| * if pct < 100 then pct else 100;
      && (exists k :: k in particles && particles[k].piStar == floor)
      && 100 * |Above(particles, floor)| < share <= 100 * |AtFloor(particles, floor)|
  }

  lemma FewAbove(particles: map<Key, ParticleRecord>, ks: seq<Key>, boundary: nat)
    requires Ascending(PiStars(particles), ks) && NoDup(ks) && boundary < |ks| && Elements(ks) == particles.Keys
    ensures |Above(particles, PiStars(particles)[ks[boundary]])| < |ks| - boundary
  {
    var top, floor := ks[boundary + 1..], PiStars(particles)[ks[boundary]];
    NoDupSize(top);
    forall k | k in Above(particles, floor)
      ensures k in Elements(top)
    {
      assert k in Elements(ks);
      var i :| 0 <= i < |ks| && ks[i] == k;
      assert i > boundary && top[i - boundary - 1] == k;
    }
    SubsetCount(Above(particles, floor), Elements(top));
  }

  lemma ShareAt(n: nat, pct: byte)
    requires n > 0 && pct > 0
    ensures var protected, share := ProtectedCount(n, pct), n * if pct < 100 then pct else 100;
            var top := if protected <= n then protected else n;
            0 < top <= n && 100 * (top - 1) < share <= 100 * top
  {
    SomeProtected(n, pct);
    if pct > 100 {
      MulMonotone(n, 100, pct);
    }
  }

  // The score at the boundary of the sorted scores is that floor.
  lemma FloorIsFloor(particles: map<Key, ParticleRecord>, pct: byte)
    ensures IsFloor(particles, pct, RankFloor(particles, pct))
  {
    hide Ordered, AtFloor, Above, ProtectedCount, Ascending, NoDup;
    if pct > 0 && particles != map[] {
      var scores := PiStars(particles);
      OrderedFacts(scores);
      var ks := Ordered(scores);
      assert scores.Keys == particles.Keys && |scores| == |scores.Keys|;
      var n := |particles|;
      ShareAt(n, pct);
      var boundary := if ProtectedCount(n, pct) <= n then n - ProtectedCount(n, pct) else 0;
      assert RankFloor(particles, pct) == scores[ks[boundary]];
      assert ks[boundary] in Elements(ks);
      TopAtFloor(particles, ks, boundary);
      FewAbove(particles, ks, boundary);
    }
  }

  // No second score is the floor.
  lemma OneFloor(particles: map<Key, ParticleRecord>, pct: byte, f: u64, g: u64)
    requires IsFloor(particles, pct, f) && IsFloor(particles, pct, g)
    ensures f == g
  {
    if pct > 0 && particles != map[] && f != g {
      var low, high := if f < g then f else g, if f < g then g else f;
      SubsetCount(AtFloor(particles, high), Above(particles, low));
    }
  }

  method ComputeRankFloor(particles: map<Key, ParticleRecord>, pct: byte) returns (floor: u64)
    ensures floor == RankFloor(particles, pct) && IsFloor(particles, pct, floor)
  {
    hide AtFloor, Above;
    FloorIsFloor(particles, pct);
    if pct == 0 {
      return U64_BOUND - 1;
    }
    if particles == map[] {
      return 0;
    }
    var scores := PiStars(particles);
    var ks := SortByWeight(scores);
    OrderedFacts(scores);
    SomeProtected(|ks|, pct);
    var protected := (|ks| * pct + 99) / 100;
    var boundary := if protected <= |ks| then |ks| - protected else 0;
    assert ks[boundary] in Elements(ks);
    floor := scores[ks[boundary]];
  }

  // A percentage of 1 to 100 protects at least that share of the particles, rounded up.
  lemma FloorProtects(particles: map<Key, ParticleRecord>, pct: byte)
    requires 0 < pct <= 100
    ensures |AtFloor(particles, RankFloor(particles, pct))| >= ProtectedCount(|particles|, pct)
  {
    hide Ordered, AtFloor, ProtectedCount, Ascending, NoDup;
    if particles == map[] {
      NoneProtected(pct);
    } else {
      var scores := PiStars(particles);
      OrderedFacts(scores);
      assert scores.Keys == particles.Keys && |scores| == |scores.Keys|;
      SomeProtected(|particles|, pct);
      TopAtFloor(particles, Ordered(scores), |particles| - ProtectedCount(|particles|, pct));
    }
  }

  lemma NoneProtected(pct: byte)
    ensures ProtectedCount(0, pct) == 0
  {
  }

  // A percentage of 0 is meant to protect nothing. It does so exactly while no score is the
  // largest u64, because the floor it sets is that score and not one above it.
  lemma ZeroProtects(particles: map<Key, ParticleRecord>)
    ensures AtFloor(particles, RankFloor(particles, 0)) == {}
       <==> forall k :: k in particles ==> particles[k].piStar < U64_BOUND - 1
  {
    if k :| k in particles && particles[k].piStar == U64_BOUND - 1 {
      assert k in AtFloor(particles, RankFloor(particles, 0));
    }
  }

  // One particle with the largest score, over budget with a percentage of 0: no candidate is
  // left to prune, so the cycle ends over budget with the particle in place.
  lemma ZeroProtectsOne(w: World, epoch: u64, k: Key)
    requires w.config.rankFloorPct == 0 && w.config.maxBytes == 0
    requires w.state.particles == map[k := ZERO_PARTICLE.(piStar := U64_BOUND - 1)]
    ensures OverBudget(w) && Pruned(w, epoch) == w
    ensures AtFloor(w.state.particles, RankFloor(w.state.particles, 0)) == {k}
  {
    assert Candidates(w, epoch) == map[];
    OrderedFacts(Candidates(w, epoch));
  }

  // With a percentage of 100 or more the floor is the least score, so it protects every particle.
  lemma FullProtects(particles: map<Key, ParticleRecord>, pct: byte)
    requires pct >= 100
    ensures AtFloor(particles, RankFloor(particles, pct)) == particles.Keys
  {
    hide Ordered, RankFloor, AtFloor, Above;
    FloorIsFloor(particles, pct);
    AllAtFloor(particles, RankFloor(particles, pct));
  }

  lemma AllAtFloor(particles: map<Key, ParticleRecord>, floor: u64)
    requires |AtFloor(particles, floor)| >= |particles|
    ensures AtFloor(particles, floor) == particles.Keys
  {
    assert |particles.Keys| == |particles|;
    if k :| k in particles && k !in AtFloor(particles, floor) {
      SubsetCount(AtFloor(particles, floor), particles.Keys - {k});
    }
  }

  // ---------------------------------------------------------------- candidates

  ghost function SumLists(lists: Lists): nat
  {
    if lists == map[] then 0
    else
      var p :| p in lists;
      32 + 32 * |lists[p]| + SumLists(lists - {p})
  }

  // The sum does not depend on the order the lists are visited in.
  lemma {:induction false} SumListsAt(lists: Lists, p: Key)
    requires p in lists
    ensures SumLists(lists) == 32 + 32 * |lists[p]| + SumLists(lists - {p})
    decreases |lists|
  {
    var q :| q in lists && SumLists(lists) == 32 + 32 * |lists[q]| + SumLists(lists - {q});
    if q != p {
      SumListsAt(lists - {q}, p);
      SumListsAt(lists - {p}, q);
      assert lists - {q} - {p} == lists - {p} - {q};
    }
  }

  method ComputeSumLists(lists: Lists) returns (n: nat)
    ensures n == SumLists(lists)
  {
    n := 0;
    var rest := lists;
    while rest != map[]
      invariant n + SumLists(rest) == SumLists(lists)
      decreases |rest|
    {
      var p :| p in rest;
      SumListsAt(rest, p);
      n := n + 32 + 32 * |rest[p]|;
      rest := rest - {p};
    }
  }

  // Bytes the graph is taken to occupy.
  ghost function Estimate(s: State): nat
  {
    80 * |s.particles| + SumLists(s.axonsOut) + SumLists(s.axonsIn) + 64 * |s.neurons|
  }

  ghost function Row(p: Key, n: nat): set<(Key, nat)>
  {
    set i: nat | i < n :: (p, i)
  }

  // The places of all lists.
  ghost function Places(lists: Lists): set<(Key, nat)>
  {
    set p, i: nat | p in lists && i < |lists[p]| :: (p, i)
  }

  lemma {:induction false} RowSize(p: Key, n: nat)
    ensures |Row(p, n)| == n
  {
    if n > 0 {
      RowSize(p, n - 1);
      assert Row(p, n) == Row(p, n - 1) + {(p, n - 1)};
    }
  }

  lemma {:induction false} SumIsPlaces(lists: Lists)
    ensures SumLists(lists) == 32 * |lists| + 32 * |Places(lists)|
    decreases |lists|
  {
    if lists == map[] {
      assert Places(lists) == {};
    } else {
      var p :| p in lists;
      SumListsAt(lists, p);
      SumIsPlaces(lists - {p});
      PlacesSplit(lists, p);
    }
  }

  lemma PlacesSplit(lists: Lists, p: Key)
    requires p in lists
    ensures |Places(lists)| == |lists[p]| + |Places(lists - {p})|
  {
    RowSize(p, |lists[p]|);
    var rest, row := Places(lists - {p}), Row(p, |lists[p]|);
    assert Places(lists) == rest + row && rest !! row;
  }

  // 80 bytes a particle, 64 a neuron, 32 a list and 32 a listed axon.
  ghost function Occupied(s: State): nat
  {
    80 * |s.particles| + 64 * |s.neurons| + 32 * (|s.axonsOut| + |Places(s.axonsOut)| + |s.axonsIn| + |Places(s.axonsIn)|)
  }

  lemma EstimateIsOccupied(s: State)
    ensures Estimate(s) == Occupied(s)
  {
    SumIsPlaces(s.axonsOut);
    SumIsPlaces(s.axonsIn);
  }

  method EstimateBytes(s: State) returns (n: nat)
    ensures n == Estimate(s) == Occupied(s)
  {
    EstimateIsOccupied(s);
    var outBytes := ComputeSumLists(s.axonsOut);
    var inBytes := ComputeSumLists(s.axonsIn);
    n := 80 * |s.particles| + outBytes + inBytes + 64 * |s.neurons|;
  }

  ghost predicate OverBudget(w: World)
  {
    Estimate(w.state) > w.config.maxBytes
  }

  // Under size pressure every unprotected entry competes; otherwise just the stale unprotected ones.
  ghost function Candidates(w: World, epoch: u64): map<Key, u64>
  {
    var floor := RankFloor(w.state.particles, w.config.rankFloorPct);
    if OverBudget(w) then
      map k | k in w.state.particles && w.state.particles[k].piStar < floor :: w.state.particles[k].weight
    else
      map k | k in w.touched && ParticleOr0(w.state, k).piStar < floor
              && SatSub(epoch, w.touched[k]) > w.config.halfLifeEpochs :: ParticleOr0(w.state, k).weight
  }

  // The keys below the floor that no signal has touched for longer than the half-life.
  ghost function Stale(w: World, epoch: u64, floor: u64): set<Key>
  {
    set k | k in w.touched && ParticleOr0(w.state, k).piStar < floor && epoch - w.touched[k] > w.config.halfLifeEpochs
  }

  ghost function BelowFloor(w: World, floor: u64): set<Key>
  {
    set k | k in w.state.particles && w.state.particles[k].piStar < floor
  }

  // The lighter particle, or the smaller key of two as heavy, goes first.
  ghost predicate Sooner(s: State, a: Key, b: Key)
  {
    var u, v := ParticleOr0(s, a).weight, ParticleOr0(s, b).weight;
    u < v || (u == v && Lt(a, b))
  }

  lemma OrderedBefore(ws: map<Key, u64>, i: nat, j: nat)
    requires i < j < |Ordered(ws)|
    ensures Before(ws, Ordered(ws)[i], Ordered(ws)[j])
  {
    hide Lt, Before;
    ByWeightTotal(ws);
    SortedFacts(ByWeight(ws), ws.Keys);
    assert ByWeight(ws)(Ordered(ws)[i], Ordered(ws)[j]);
  }

  lemma StaleCandidates(w: World, epoch: u64)
    ensures var floor := RankFloor(w.state.particles, w.config.rankFloorPct);
            && (Occupied(w.state) <= w.config.maxBytes ==> !OverBudget(w) && Candidates(w, epoch).Keys == Stale(w, epoch, floor))
            && (Occupied(w.state) > w.config.maxBytes ==> OverBudget(w) && Candidates(w, epoch).Keys == BelowFloor(w, floor))
  {
    hide RankFloor, Estimate, Occupied;
    EstimateIsOccupied(w.state);
  }

  lemma HeavierLater(w: World, epoch: u64, a: Key, b: Key)
    requires a in Candidates(w, epoch) && b in Candidates(w, epoch) && Before(Candidates(w, epoch), a, b)
    ensures Sooner(w.state, a, b)
  {
    hide RankFloor, Lt, OverBudget;
  }

  // A plan lists what may go, lightest first, unless that is more than the limit.
  ghost predicate Planned(w: World, epoch: u64, floor: u64, limit: nat, r: Option<seq<Key>>)
  {
    var cs := if Occupied(w.state) > w.config.maxBytes then BelowFloor(w, floor) else Stale(w, epoch, floor);
    && IsFloor(w.state.particles, w.config.rankFloorPct, floor)
    && (r.None? <==> |cs| > limit)
    && (r.Some? ==> Elements(r.value) == cs && NoDup(r.value)
                    && forall i, j :: 0 <= i < j < |r.value| ==> Sooner(w.state, r.value[i], r.value[j]))
  }

  lemma OrderedPlanned(w: World, epoch: u64, limit: nat)
    ensures var cs, floor := Candidates(w, epoch), RankFloor(w.state.particles, w.config.rankFloorPct);
            Planned(w, epoch, floor, limit, if |cs| > limit then None else Some(Ordered(cs)))
  {
    hide Candidates, Ordered, RankFloor, Elements, NoDup, Before, Sooner, Occupied, OverBudget, Stale, BelowFloor, IsFloor;
    var cs := Candidates(w, epoch);
    FloorIsFloor(w.state.particles, w.config.rankFloorPct);
    StaleCandidates(w, epoch);
    OrderedFacts(cs);
    assert |cs| == |cs.Keys|;
    forall i, j | 0 <= i < j < |Ordered(cs)|
      ensures Sooner(w.state, Ordered(cs)[i], Ordered(cs)[j])
    {
      OrderedIn(cs, i);
      OrderedIn(cs, j);
      OrderedBefore(cs, i, j);
      HeavierLater(w, epoch, Ordered(cs)[i], Ordered(cs)[j]);
    }
  }

  lemma OrderedIn(ws: map<Key, u64>, i: nat)
    requires i < |Ordered(ws)|
    ensures Ordered(ws)[i] in ws
  {
    hide Ordered;
    OrderedFacts(ws);
    assert Ordered(ws)[i] in Elements(Ordered(ws));
  }

  // Plan the candidates, lightest first, with a bound on their number.
  method Plan(w: World, epoch: u64, limit: nat) returns (over: bool, r: Option<seq<Key>>)
    ensures over == OverBudget(w) == (Occupied(w.state) > w.config.maxBytes)
    ensures r == if |Candidates(w, epoch)| > limit then None else Some(Ordered(Candidates(w, epoch)))
    ensures exists floor: u64 :: Planned(w, epoch, floor, limit, r)
  {
    hide Occupied, Planned, Ordered, RankFloor, IsFloor;
    OrderedPlanned(w, epoch, limit);
    var floor := ComputeRankFloor(w.state.particles, w.config.rankFloorPct);
    var size := EstimateBytes(w.state);
    over := size > w.config.maxBytes;
    var candidates :=
      if over then map k | k in w.state.particles && w.state.particles[k].piStar < floor :: w.state.particles[k].weight
      else map k | k in w.touched && ParticleOr0(w.state, k).piStar < floor
                   && SatSub(epoch, w.touched[k]) > w.config.halfLifeEpochs :: ParticleOr0(w.state, k).weight;
    var plan := CollectAndSort(candidates, limit);
    r := plan;
  }

  // Collect the candidates, giving up at the limit, and sort them by weight.
  method CollectAndSort(candidates: map<Key, u64>, limit: nat) returns (r: Option<seq<Key>>)
    ensures r == if |candidates| > limit then None else Some(Ordered(candidates))
  {
    hide Ordered;
    var collected, rest := {}, candidates.Keys;
    while rest != {}
      invariant rest <= candidates.Keys && collected == candidates.Keys - rest && |collected| <= limit
      decreases rest
    {
      assert |collected| == |candidates.Keys| - |rest|;
      if |collected| == limit {
        return None;
      }
      var k :| k in rest;
      collected := collected + {k};
      rest := rest - {k};
    }
    var plan := SortByWeight(candidates);
    r := Some(plan);
  }

  // ---------------------------------------------------------------- removal

  // An axon goes with its edge, its place in both lists, and its touch.
  function Removed(w: World, axon: Key): World
  {
    var s := w.state.(particles := w.state.particles - {axon});
    var t := if axon !in s.edges then s
             else
               var (from, to) := s.edges[axon];
               s.(edges := s.edges - {axon},
                  axonsOut := DropAxon(s.axonsOut, from, axon),
                  axonsIn := DropAxon(s.axonsIn, to, axon));
    w.(state := t, touched := w.touched - {axon})
  }

  function AllRemoved(w: World, plan: seq<Key>): World
  {
    if plan == [] then w else Removed(AllRemoved(w, plan[..|plan| - 1]), plan[|plan| - 1])
  }

  // Removal stops as soon as a size-pressure cycle fits the budget.
  ghost predicate Stops(w: World, over: bool)
  {
    over && !OverBudget(w)
  }

  ghost predicate StopsAt(w: World, plan: seq<Key>, over: bool, n: nat)
    requires n <= |plan|
  {
    Stops(AllRemoved(w, plan[..n]), over)
  }

  // How many candidates the cycle removes.
  ghost function Cut(w: World, plan: seq<Key>, over: bool, n: nat): (k: nat)
    requires n <= |plan|
    ensures n <= k <= |plan|
    decreases |plan| - n
  {
    if n == |plan| || StopsAt(w, plan, over, n) then n else Cut(w, plan, over, n + 1)
  }

  ghost function Pruned(w: World, epoch: u64): World
  {
    var plan := Ordered(Candidates(w, epoch));
    AllRemoved(w, plan[..Cut(w, plan, OverBudget(w), 0)])
  }

  lemma PrunedTo(w: World, epoch: u64)
    ensures var plan := Ordered(Candidates(w, epoch));
            Pruned(w, epoch) == AllRemoved(w, plan[..Cut(w, plan, OverBudget(w), 0)])
  {
  }

  lemma {:induction false} CutIsShortest(w: World, plan: seq<Key>, over: bool, n: nat)
    requires n <= |plan|
    ensures var k := Cut(w, plan, over, n);
            (k < |plan| ==> StopsAt(w, plan, over, k)) && forall j :: n <= j < k ==> !StopsAt(w, plan, over, j)
    decreases |plan| - n
  {
    hide StopsAt;
    if n < |plan| && !StopsAt(w, plan, over, n) {
      CutIsShortest(w, plan, over, n + 1);
    }
  }

  lemma CutStep(w: World, plan: seq<Key>, over: bool, n: nat)
    requires n <= |plan|
    ensures n == |plan| || StopsAt(w, plan, over, n) ==> Cut(w, plan, over, n) == n
    ensures n < |plan| && !StopsAt(w, plan, over, n) ==> Cut(w, plan, over, n) == Cut(w, plan, over, n + 1)
  {
  }

  // Whether the cycle stops is decided by the estimate of the state so far.
  lemma StopsWhen(w: World, plan: seq<Key>, over: bool, n: nat, v: World)
    requires n <= |plan| && v == AllRemoved(w, plan[..n])
    ensures StopsAt(w, plan, over, n) == (over && Estimate(v.state) <= v.config.maxBytes)
  {
  }

  lemma RemoveNext(w: World, plan: seq<Key>, n: nat)
    requires n < |plan|
    ensures AllRemoved(w, plan[..n + 1]) == Removed(AllRemoved(w, plan[..n]), plan[n])
  {
    assert plan[..n + 1][..n] == plan[..n];
  }

  // A removal touches no particle but the axon's own.
  lemma {:induction false} RemovalKeeps(w: World, plan: seq<Key>, k: Key)
    requires k !in plan
    ensures var v := AllRemoved(w, plan);
            (k in v.state.particles <==> k in w.state.particles)
            && (k in w.state.particles ==> v.state.particles[k] == w.state.particles[k])
            && (k in v.touched <==> k in w.touched)
            && (k in w.touched ==> v.touched[k] == w.touched[k])
  {
    if plan != [] {
      RemovalKeeps(w, plan[..|plan| - 1], k);
    }
  }

  lemma {:induction false} RemovalRemoves(w: World, plan: seq<Key>, k: Key)
    requires k in plan
    ensures k !in AllRemoved(w, plan).state.particles && k !in AllRemoved(w, plan).touched
  {
    if k != plan[|plan| - 1] {
      RemovalRemoves(w, plan[..|plan| - 1], k);
    }
  }

  // A cycle keeps every particle at or above the floor.
  lemma FloorKept(w: World, epoch: u64, k: Key)
    requires k in AtFloor(w.state.particles, RankFloor(w.state.particles, w.config.rankFloorPct))
    ensures k in Pruned(w, epoch).state.particles && Pruned(w, epoch).state.particles[k] == w.state.particles[k]
  {
    var cs := Candidates(w, epoch);
    var plan := Ordered(cs);
    OrderedFacts(cs);
    var cut := plan[..Cut(w, plan, OverBudget(w), 0)];
    assert k !in plan by {
      assert k in plan <==> k in Elements(plan);
    }
    RemovalKeeps(w, cut, k);
  }

  // With a percentage of 1 to 100, at least that share of the particles survives a cycle.
  lemma ShareSurvives(w: World, epoch: u64)
    requires 0 < w.config.rankFloorPct <= 100
    ensures |Pruned(w, epoch).state.particles| >= ProtectedCount(|w.state.particles|, w.config.rankFloorPct)
  {
    var kept := AtFloor(w.state.particles, RankFloor(w.state.particles, w.config.rankFloorPct));
    FloorProtects(w.state.particles, w.config.rankFloorPct);
    forall k | k in kept
      ensures k in Pruned(w, epoch).state.particles.Keys
    {
      FloorKept(w, epoch, k);
    }
    SubsetCount(kept, Pruned(w, epoch).state.particles.Keys);
  }

  // Over budget, a cycle removes the shortest prefix of the keys below the floor, lightest first, after
  // which the state fits, or all of them; within budget, it removes every stale key below the floor.
  lemma PrefixRemoved(w: World, epoch: u64) returns (n: nat, plan: seq<Key>, floor: u64)
    ensures Planned(w, epoch, floor, |plan|, Some(plan)) && n <= |plan| && Pruned(w, epoch) == AllRemoved(w, plan[..n])
    ensures Occupied(w.state) <= w.config.maxBytes ==> n == |plan|
    ensures Occupied(w.state) > w.config.maxBytes ==>
              && (n < |plan| ==> Occupied(AllRemoved(w, plan[..n]).state) <= w.config.maxBytes)
              && forall j :: 0 <= j < n ==> Occupied(AllRemoved(w, plan[..j]).state) > w.config.maxBytes
    ensures forall i :: 0 <= i < n ==> plan[i] !in Pruned(w, epoch).state.particles && plan[i] !in Pruned(w, epoch).touched
  {
    hide Candidates, Ordered, RankFloor, Occupied, Estimate, AllRemoved, Planned;
    var cs := Candidates(w, epoch);
    floor := RankFloor(w.state.particles, w.config.rankFloorPct);
    plan := Ordered(cs);
    OrderedFacts(cs);
    OrderedPlanned(w, epoch, |plan|);
    n := Cut(w, plan, OverBudget(w), 0);
    CutIsShortest(w, plan, OverBudget(w), 0);
    EstimateIsOccupied(w.state);
    assert n < |plan| ==> StopsAt(w, plan, OverBudget(w), n);
    forall j | 0 <= j <= n
      ensures StopsAt(w, plan, OverBudget(w), j) <==> OverBudget(w) && Occupied(AllRemoved(w, plan[..j]).state) <= w.config.maxBytes
    {
      FitsAt(w, plan, j);
    }
    forall i | 0 <= i < n
      ensures plan[i] !in Pruned(w, epoch).state.particles && plan[i] !in Pruned(w, epoch).touched
    {
      assert plan[..n][i] == plan[i];
      RemovalRemoves(w, plan[..n], plan[i]);
    }
  }

  lemma FitsAt(w: World, plan: seq<Key>, j: nat)
    requires j <= |plan|
    ensures StopsAt(w, plan, OverBudget(w), j) <==> OverBudget(w) && Occupied(AllRemoved(w, plan[..j]).state) <= w.config.maxBytes
  {
    hide Estimate, Occupied;
    var v := AllRemoved(w, plan[..j]);
    EstimateIsOccupied(v.state);
    RemovalConfig(w, plan[..j]);
  }

  lemma {:induction false} RemovalConfig(w: World, plan: seq<Key>)
    ensures AllRemoved(w, plan).config == w.config
  {
    if plan != [] {
      RemovalConfig(w, plan[..|plan| - 1]);
    }
  }
}
