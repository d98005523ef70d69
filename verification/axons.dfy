// The adjacency index: particle -> insertion-ordered axon list, each list mirrored by a
// nested trie, an outer trie over the lists, and a histogram of list lengths.
module Axons {
  import opened Wrappers
  import opened Bytes
  import opened Integers
  import opened Digests
  import opened Commitment
  import opened TrieProofs
  import opened Tries

  type Lists = map<Key, seq<Key>>

  ghost predicate NoDup(list: seq<Key>)
  {
    forall i, j :: 0 <= i < j < |list| ==> list[i] != list[j]
  }

  ghost function Elements(list: seq<Key>): set<Key>
  {
    set a | a in list
  }

  // The entries of a member trie: empty leaf values under every axon id.
  ghost function Members(list: seq<Key>): Entries
  {
    map a | a in list :: LeafDigest(a, [])
  }

  // What the outer trie stores for a particle: two limbs of degree, then its member root.
  ghost function AxonLeaf(particle: Key, degree: u64, setRoot: Digest): Digest
  {
    LeafDigest(particle, U64Limbs(degree) + Limbs(setRoot))
  }

  ghost predicate Small(lists: Lists)
  {
    forall p :: p in lists ==> |lists[p]| <= MAX_LEAVES
  }

  // The entries the outer trie commits to.
  ghost function Outer(lists: Lists): Entries
    requires Small(lists)
  {
    map p | p in lists :: AxonLeaf(p, |lists[p]|, Node(Members(lists[p])))
  }

  // How many lists have length d.
  ghost function OfDegree(lists: Lists, d: nat): set<Key>
  {
    set p | p in lists && |lists[p]| == d
  }

  // The histogram is exact: it holds just the nonzero lengths that occur, with their counts.
  ghost predicate Histogram(degrees: map<nat, nat>, lists: Lists)
  {
    && (forall d :: d in degrees ==> d > 0 && degrees[d] > 0)
    && (forall d :: d > 0 ==> (if d in degrees then degrees[d] else 0) == |OfDegree(lists, d)|)
  }

  // One particle changes degree.
  function DegreeMoved(degrees: map<nat, nat>, from: nat, to: nat): map<nat, nat>
  {
    if from == to then degrees
    else
      var less :=
        if from == 0 || from !in degrees then degrees
        else if degrees[from] <= 1 then degrees - {from}
        else degrees[from := degrees[from] - 1];
      if to == 0 then less else less[to := (if to in less then less[to] else 0) + 1]
  }

  ghost function Degree(lists: Lists, p: Key): nat
  {
    if p in lists then |lists[p]| else 0
  }

  // The two relations differ at most in p's list.
  ghost predicate SameBut(a: Lists, b: Lists, p: Key)
  {
    a - {p} == b - {p}
  }

  lemma SetMoved<T>(a: set<T>, b: set<T>, p: T)
    requires a - {p} == b - {p}
    ensures |b| == |a| - (if p in a then 1 else 0) + (if p in b then 1 else 0)
  {
    assert |a - {p}| == |a| - (if p in a then 1 else 0);
    assert |b - {p}| == |b| - (if p in b then 1 else 0);
  }

  lemma OfDegreeMoved(lists: Lists, lists': Lists, p: Key, d: nat)
    requires SameBut(lists, lists', p) && d > 0
    ensures |OfDegree(lists', d)| == |OfDegree(lists, d)|
              - (if Degree(lists, p) == d then 1 else 0) + (if Degree(lists', p) == d then 1 else 0)
  {
    var a, b := OfDegree(lists, d), OfDegree(lists', d);
    assert a - {p} == b - {p} by {
      forall q | q != p
        ensures q in a <==> q in b
      {
        assert q in lists <==> q in lists - {p};
        assert q in lists' <==> q in lists' - {p};
      }
    }
    SetMoved(a, b, p);
  }

  // Moving one particle in an exact histogram keeps it exact.
  lemma HistogramMoved(degrees: map<nat, nat>, lists: Lists, lists': Lists, p: Key)
    requires Histogram(degrees, lists) && SameBut(lists, lists', p)
    ensures Degree(lists, p) > 0 ==> Degree(lists, p) in degrees
    ensures Histogram(DegreeMoved(degrees, Degree(lists, p), Degree(lists', p)), lists')
  {
    var from, to := Degree(lists, p), Degree(lists', p);
    if from > 0 {
      assert p in OfDegree(lists, from);
    }
    var moved := DegreeMoved(degrees, from, to);
    forall d | d > 0
      ensures (if d in moved then moved[d] else 0) == |OfDegree(lists', d)|
    {
      OfDegreeMoved(lists, lists', p, d);
    }
  }

  lemma NoDupSize(list: seq<Key>)
    requires NoDup(list)
    ensures |Elements(list)| == |list|
  {
    if list != [] {
      var rest := list[..|list| - 1];
      NoDupSize(rest);
      assert list == rest + [list[|list| - 1]];
      assert Elements(list) == Elements(rest) + {list[|list| - 1]};
      assert list[|list| - 1] !in rest;
    }
  }

  // The commitment is a function of the particle-to-set relation alone: list order leaves no trace.
  lemma CommitmentOfRelation(a: Lists, b: Lists)
    requires Small(a) && Small(b) && a.Keys == b.Keys
    requires forall p :: p in a ==> NoDup(a[p]) && NoDup(b[p]) && Elements(a[p]) == Elements(b[p])
    ensures Outer(a) == Outer(b)
  {
    forall p | p in a
      ensures Members(a[p]) == Members(b[p]) && |a[p]| == |b[p]|
    {
      SameElements(a[p], b[p]);
    }
  }

  lemma SameElements(a: seq<Key>, b: seq<Key>)
    requires NoDup(a) && NoDup(b) && Elements(a) == Elements(b)
    ensures Members(a) == Members(b) && |a| == |b|
  {
    NoDupSize(a);
    NoDupSize(b);
    assert forall x :: x in a <==> x in Elements(a);
    assert forall x :: x in b <==> x in Elements(b);
  }

  // The first occurrences of a list, in order: what a set-backed filter keeps.
  function Dedup(list: seq<Key>): (kept: seq<Key>)
  {
    if list == [] then []
    else
      var rest, last := Dedup(list[..|list| - 1]), list[|list| - 1];
      if last in rest then rest else rest + [last]
  }

  lemma NoDupPrefix(list: seq<Key>)
    requires NoDup(list) && list != []
    ensures NoDup(list[..|list| - 1]) && list[|list| - 1] !in list[..|list| - 1]
  {
    var rest, last := list[..|list| - 1], list[|list| - 1];
    forall i, j | 0 <= i < j < |rest|
      ensures rest[i] != rest[j]
    {
      assert list[i] != list[j];
    }
    forall i | 0 <= i < |rest|
      ensures rest[i] != last
    {
      assert list[i] != list[|list| - 1];
    }
  }

  lemma {:induction false} DedupFacts(list: seq<Key>)
    ensures NoDup(Dedup(list)) && Elements(Dedup(list)) == Elements(list) && |Dedup(list)| <= |list|
    ensures NoDup(list) ==> Dedup(list) == list
  {
    if list != [] {
      var rest, last := list[..|list| - 1], list[|list| - 1];
      DedupFacts(rest);
      assert list == rest + [last];
      assert Elements(list) == Elements(rest) + {last};
      assert last in Dedup(rest) <==> last in Elements(Dedup(rest));
      assert last in rest <==> last in Elements(rest);
      if NoDup(list) {
        NoDupPrefix(list);
        assert Dedup(rest) == rest && last !in rest;
      }
    }
  }

  // list.retain(|a| a != axon)
  function Retain(list: seq<Key>, axon: Key): (kept: seq<Key>)
    ensures |kept| <= |list| && (forall a :: a in kept <==> a in list && a != axon)
  {
    if list == [] then []
    else
      var rest, last := Retain(list[..|list| - 1], axon), list[|list| - 1];
      if last == axon then rest else rest + [last]
  }

  lemma {:induction false} RetainNoDup(list: seq<Key>, axon: Key)
    requires NoDup(list)
    ensures NoDup(Retain(list, axon))
    ensures axon in list ==> |Retain(list, axon)| == |list| - 1
    ensures axon !in list ==> Retain(list, axon) == list
  {
    if list != [] {
      var rest, last := list[..|list| - 1], list[|list| - 1];
      RetainNoDup(rest, axon);
      assert list == rest + [last];
      assert last !in rest;
    }
  }

  // From a list without duplicates retain cuts out the one place and closes the gap: what is kept
  // keeps its order.
  lemma {:induction false} RetainCuts(list: seq<Key>, axon: Key, i: nat)
    requires NoDup(list) && i < |list| && list[i] == axon
    ensures Retain(list, axon) == list[..i] + list[i + 1..]
  {
    var n := |list| - 1;
    var rest, last := list[..n], list[n];
    NoDupPrefix(list);
    RetainNoDup(rest, axon);
    if i < n {
      RetainCuts(rest, axon, i);
      assert rest[..i] == list[..i] && list[i + 1..] == rest[i + 1..] + [last];
    } else {
      assert list[..i] + list[i + 1..] == rest;
    }
  }

  // kept lists each axon of list once, in the order of their first places: before every place of
  // a kept axon stands a place of each one kept before it.
  ghost predicate FirstPlaces(list: seq<Key>, kept: seq<Key>)
  {
    && NoDup(kept) && (forall a :: a in kept <==> a in list)
    && forall x, y, j :: 0 <= x < y < |kept| && 0 <= j < |list| && list[j] == kept[y] ==> kept[x] in list[..j]
  }

  lemma {:induction false} DedupFirstPlaces(list: seq<Key>)
    ensures FirstPlaces(list, Dedup(list))
  {
    DedupFacts(list);
    var kept := Dedup(list);
    forall a
      ensures a in kept <==> a in list
    {
      assert a in Elements(kept) <==> a in Elements(list);
    }
    if list != [] {
      var n := |list| - 1;
      var rest := list[..n];
      DedupFirstPlaces(rest);
      forall x, y, j | 0 <= x < y < |kept| && 0 <= j < |list| && list[j] == kept[y]
        ensures kept[x] in list[..j]
      {
        assert x < |Dedup(rest)| && kept[x] == Dedup(rest)[x] && Dedup(rest)[x] in Dedup(rest);
        if j < n {
          assert rest[j] == list[j] && rest[..j] == list[..j];
          assert kept[y] in rest;
          assert kept[y] == Dedup(rest)[y];
        }
      }
    }
  }

  lemma MembersPush(list: seq<Key>, axon: Key)
    ensures Members(list + [axon]) == Members(list)[axon := LeafDigest(axon, [])]
  {
    assert forall a :: a in list + [axon] <==> a in list || a == axon;
  }

  lemma MembersHas(list: seq<Key>, axon: Key)
    ensures axon in Members(list) <==> axon in list
    ensures axon in list ==> Members(list)[axon := LeafDigest(axon, [])] == Members(list)
  {
  }

  lemma MembersRetain(list: seq<Key>, axon: Key)
    ensures Members(Retain(list, axon)) == Members(list) - {axon}
  {
  }

  lemma PushNoDup(list: seq<Key>, axon: Key)
    requires NoDup(list)
    ensures axon !in list ==> NoDup(list + [axon])
  {
  }

  lemma EmptyNoDup()
    ensures NoDup([]) && Members([]) == map[]
  {
  }

  // Dropping the element at i from what a truncation at len still holds.
  lemma MembersCut(list: seq<Key>, len: nat, i: nat)
    requires NoDup(list) && len <= i < |list|
    ensures Members(list[..len] + list[i + 1..]) == Members(list[..len] + list[i..]) - {list[i]}
  {
    var a, b := list[..len] + list[i + 1..], list[..len] + list[i..];
    forall x
      ensures x in a <==> x in b && x != list[i]
    {
      CutHas(list, len, i, x);
    }
    assert Members(a).Keys == Members(b).Keys - {list[i]};
  }

  lemma CutHas(list: seq<Key>, len: nat, i: nat, x: Key)
    requires NoDup(list) && len <= i < |list|
    ensures x in list[..len] + list[i + 1..] <==> x in list[..len] + list[i..] && x != list[i]
  {
    assert list[i..] == [list[i]] + list[i + 1..];
    assert x in list[..len] ==> x != list[i];
    assert x in list[i + 1..] ==> x != list[i];
  }

  lemma PrefixNoDup(list: seq<Key>, len: nat)
    requires NoDup(list) && len <= |list|
    ensures NoDup(list[..len])
  {
  }

  lemma MembersSize(list: seq<Key>)
    requires NoDup(list)
    ensures |Members(list)| == |list|
  {
    NoDupSize(list);
    assert Members(list).Keys == Elements(list);
  }

  // Each list is nonempty, without duplicates, and mirrored by its member entries; p's may be in flux.
  ghost predicate MirrorBut(lists: Lists, views: map<Key, Entries>, p: Key)
  {
    forall q :: q != p ==> (q in lists <==> q in views) && (q in lists ==> MirrorAt(lists[q], views[q]))
  }

  ghost predicate Mirror(lists: Lists, views: map<Key, Entries>)
  {
    lists.Keys == views.Keys && forall q :: q in lists ==> MirrorAt(lists[q], views[q])
  }

  ghost predicate MirrorAt(list: seq<Key>, view: Entries)
  {
    list != [] && NoDup(list) && view == Members(list)
  }

  lemma MirrorKeys(lists: Lists, views: map<Key, Entries>)
    requires Mirror(lists, views)
    ensures lists.Keys == views.Keys
  {
  }

  lemma MirrorOne(lists: Lists, views: map<Key, Entries>, p: Key)
    requires Mirror(lists, views) && p in lists
    ensures p in views && lists[p] != [] && NoDup(lists[p]) && views[p] == Members(lists[p])
  {
  }

  lemma SmallOne(lists: Lists, p: Key)
    requires Small(lists) && p in lists
    ensures |lists[p]| <= MAX_LEAVES
  {
  }

  lemma MirrorFlux(lists: Lists, views: map<Key, Entries>, views': map<Key, Entries>, p: Key)
    requires Mirror(lists, views) && forall q :: q != p ==> (q in views' <==> q in views) && (q in views ==> views'[q] == views[q])
    ensures MirrorBut(lists, views', p)
  {
  }

  // Outer entries that hold the current leaf, or the absence, of every particle not marked dirty.
  ghost predicate Agrees(lists: Lists, dirty: set<Key>, es: Entries)
    requires Small(lists)
  {
    forall p :: p !in dirty ==> if p in lists then p in es && es[p] == Outer(lists)[p] else p !in es
  }

  lemma AgreesStep(lists: Lists, todo: set<Key>, es: Entries, es': Entries, p: Key)
    requires Small(lists) && Agrees(lists, todo + {p}, es)
    requires es' == if p in lists then es[p := Outer(lists)[p]] else es - {p}
    ensures Agrees(lists, todo, es')
  {
  }

  lemma AgreesAll(lists: Lists, es: Entries)
    requires Small(lists) && Agrees(lists, {}, es)
    ensures es == Outer(lists)
  {
    hide AxonLeaf, Node, Members;
    forall p
      ensures p in es <==> p in Outer(lists)
      ensures p in es ==> es[p] == Outer(lists)[p]
    {
      assert p !in {};
    }
  }

  lemma EmptyRelation()
    ensures Small(map[]) && Mirror(map[], map[]) && Histogram(map[], map[]) && Agrees(map[], {}, map[])
  {
    forall d | d > 0
      ensures OfDegree(map[], d) == {}
    {
    }
  }

  lemma OuterAt(lists: Lists, p: Key)
    requires Small(lists) && p in lists
    ensures Outer(lists)[p] == LeafDigest(p, U64Limbs(|lists[p]|) + Limbs(Node(Members(lists[p]))))
  {
  }

  // The relation with p's list replaced, or dropped when it empties.
  function WithList(lists: Lists, p: Key, list: seq<Key>): Lists
  {
    if list == [] then lists - {p} else lists[p := list]
  }

  lemma ReplaceList(lists: Lists, views: map<Key, Entries>, degrees: map<nat, nat>, dirty: set<Key>, es: Entries, p: Key, list: seq<Key>)
    requires Small(lists) && |list| <= MAX_LEAVES && NoDup(list)
    requires MirrorBut(lists, views, p) && Histogram(degrees, lists) && Agrees(lists, dirty, es)
    ensures var l' := WithList(lists, p, list);
            var v' := if list == [] then views - {p} else views[p := Members(list)];
            && Small(l') && Mirror(l', v') && Agrees(l', dirty + {p}, es)
            && Histogram(DegreeMoved(degrees, Degree(lists, p), |list|), l')
  {
    var l' := WithList(lists, p, list);
    assert SameBut(lists, l', p);
    HistogramMoved(degrees, lists, l', p);
  }

  lemma ValuesPut(m: map<Key, Trie>, p: Key, t: Trie)
    ensures m[p := t].Values <= m.Values + {t}
  {
  }

  class AxonIndex {
    var lists: Lists
    var degrees: map<nat, nat>
    var sets: map<Key, Trie>
    var trie: Trie
    var dirty: set<Key>
    // Which particle a member trie belongs to: no trie plays two parts.
    ghost var home: map<Trie, Key>

    ghost function Tries(): set<Trie>
      reads this`trie, this`sets
    {
      {trie} + sets.Values
    }

    ghost predicate Owned()
      reads this`trie, this`sets, this`home, Tries()
    {
      && trie.Valid() && trie !in home
      && forall p :: p in sets ==> sets[p] in home && home[sets[p]] == p && sets[p].Valid()
    }

    ghost function Views(): map<Key, Entries>
      reads this`sets, sets.Values
    {
      map p | p in sets :: sets[p].Entries()
    }

    ghost predicate Valid()
      reads this, Tries()
    {
      && Owned() && Mirror(lists, Views()) && Small(lists)
      && Histogram(degrees, lists) && Agrees(lists, dirty, trie.Entries())
    }

    constructor ()
      ensures Valid() && fresh(Tries()) && lists == map[] && dirty == {}
    {
      lists, degrees, sets, dirty, home := map[], map[], map[], {}, map[];
      trie := new Trie();
      new;
      forall d | d > 0
        ensures OfDegree(lists, d) == {}
      {
      }
    }

    // The degree histogram's last key: the true maximum list length.
    method MaxDegree() returns (d: nat)
      requires Valid()
      ensures lists == map[] ==> d == 0
      ensures lists != map[] ==> exists p :: p in lists && |lists[p]| == d
      ensures forall p :: p in lists ==> |lists[p]| <= d
    {
      forall p | p in lists
        ensures |lists[p]| > 0 && |lists[p]| in degrees
      {
        assert MirrorAt(lists[p], Views()[p]);
        assert p in OfDegree(lists, |lists[p]|);
      }
      d := 0;
      var rest := degrees.Keys;
      while rest != {}
        invariant rest <= degrees.Keys && (d == 0 || d in degrees)
        invariant forall e :: e in degrees && e !in rest ==> e <= d
        decreases rest
      {
        var e :| e in rest;
        d := if e > d then e else d;
        rest := rest - {e};
      }
      if d > 0 {
        assert |OfDegree(lists, d)| > 0;
        ghost var p :| p in OfDegree(lists, d);
      }
    }

    // particle's list and member trie after a mutation; the outer trie is told later.
    // A list that empties is dropped with its trie.
    method Replace(particle: Key, list: seq<Key>, member: Trie)
      requires Owned() && Small(lists) && Histogram(degrees, lists) && Agrees(lists, dirty, trie.Entries())
      requires MirrorBut(lists, Views(), particle)
      requires NoDup(list) && |list| <= MAX_LEAVES
      requires list != [] ==> member.Valid() && member.Entries() == Members(list) && member != trie && (member !in home || home[member] == particle)
      modifies this
      ensures Valid()
      ensures lists == WithList(old(lists), particle, list)
      ensures Tries() <= old(Tries()) + {member} && trie == old(trie)
      ensures dirty == old(dirty) + {particle}
    {
      hide Trie.Valid, Trie.Entries, Histogram, Small, Agrees, Mirror, MirrorBut, NoDup, Members, Outer, Views;
      ReplaceList(lists, Views(), degrees, dirty, trie.Entries(), particle, list);
      degrees := DegreeMoved(degrees, if particle in lists then |lists[particle]| else 0, |list|);
      dirty := dirty + {particle};
      StoreList(particle, list, member);
    }

    method StoreList(particle: Key, list: seq<Key>, member: Trie)
      requires Owned()
      requires list != [] ==> member.Valid() && member.Entries() == Members(list) && member != trie && (member !in home || home[member] == particle)
      modifies this`lists, this`sets, this`home
      ensures Owned() && lists == WithList(old(lists), particle, list)
      ensures Views() == if list == [] then old(Views()) - {particle} else old(Views())[particle := Members(list)]
      ensures Tries() <= old(Tries()) + {member}
    {
      hide Trie.Valid, Trie.Entries, Members, Owned, Views;
      if list == [] {
        DropEntry(particle);
      } else {
        KeepEntry(particle, list, member);
      }
    }

    method DropEntry(particle: Key)
      requires Owned()
      modifies this`lists, this`sets
      ensures Owned() && lists == old(lists) - {particle} && Views() == old(Views()) - {particle}
      ensures Tries() <= old(Tries())
    {
      hide Trie.Valid, Trie.Entries;
      lists, sets := lists - {particle}, sets - {particle};
    }

    method KeepEntry(particle: Key, list: seq<Key>, member: Trie)
      requires Owned() && member.Valid() && member != trie && (member !in home || home[member] == particle)
      modifies this`lists, this`sets, this`home
      ensures Owned() && lists == old(lists)[particle := list] && Views() == old(Views())[particle := member.Entries()]
      ensures Tries() <= old(Tries()) + {member}
    {
      hide Trie.Valid, Trie.Entries;
      ValuesPut(sets, particle, member);
      lists, sets, home := lists[particle := list], sets[particle := member], home[member := particle];
    }

    // Append an axon that is not listed yet.
    method Add(particle: Key, axon: Key) returns (isNew: bool)
      requires Valid() && Degree(lists, particle) < MAX_LEAVES
      modifies this, Tries()
      ensures Valid() && fresh(Tries() - old(Tries())) && trie == old(trie)
      ensures isNew == (particle in old(lists) ==> axon !in old(lists)[particle])
      ensures lists == if !isNew then old(lists)
                       else old(lists)[particle := (if particle in old(lists) then old(lists)[particle] else []) + [axon]]
    {
      hide Trie.Valid, Trie.Entries, Histogram, Small, Agrees, NoDup, Members, Mirror, Owned, Views;
      var list := if particle in lists then lists[particle] else [];
      var member := MemberOf(particle, list);
      isNew := AddTo(particle, axon, list, member);
    }

    method AddTo(particle: Key, axon: Key, list: seq<Key>, member: Trie) returns (isNew: bool)
      requires Valid() && list == (if particle in lists then lists[particle] else []) && |list| < MAX_LEAVES
      requires member.Valid() && member.Entries() == Members(list) && NoDup(list) && member.len == |list|
      requires if particle in sets then member == sets[particle] else member !in Tries() && member !in home
      modifies this, member
      ensures Valid() && Tries() <= old(Tries()) + {member} && trie == old(trie)
      ensures isNew == (axon !in list)
      ensures lists == if isNew then old(lists)[particle := list + [axon]] else old(lists)
    {
      hide Trie.Valid, Trie.Entries, Histogram, Small, Agrees, NoDup, Members, Mirror, MirrorBut;
      ghost var views := Views();
      var digest := ComputeLeafDigest(axon, []);
      MembersHas(list, axon);
      MembersPush(list, axon);
      PushNoDup(list, axon);
      MirrorKeys(lists, views);
      isNew := member.Set(axon, digest);
      OthersKept(particle, member);
      if isNew {
        Replace(particle, list + [axon], member);
      } else {
        assert Views() == views;
      }
    }

    // sets.entry(particle).or_default()
    method MemberOf(particle: Key, ghost list: seq<Key>) returns (member: Trie)
      requires Valid() && list == if particle in lists then lists[particle] else []
      ensures member.Valid() && member.Entries() == Members(list) && NoDup(list) && member.len == |list|
      ensures if particle in sets then member == sets[particle] else fresh(member) && member !in home && member !in Tries()
    {
      if particle in sets {
        member := sets[particle];
        assert MirrorAt(lists[particle], Views()[particle]);
      } else {
        member := new Trie();
      }
      member.ArenaAccounting();
      MembersSize(list);
    }

    // After one member trie changed, every other one is as it was.
    twostate lemma OthersKept(particle: Key, new member: Trie)
      requires old(Owned()) && old(Mirror(lists, Views()))
      requires lists == old(lists) && sets == old(sets) && trie == old(trie) && home == old(home)
      requires if particle in sets then member == sets[particle] else member !in Tries()
      requires forall t: Trie :: t in Tries() && t != member ==> unchanged(t)
      requires member != trie && member.Valid()
      ensures Owned() && trie.Entries() == old(trie.Entries()) && MirrorBut(lists, Views(), particle)
    {
      hide Trie.Valid, Trie.Entries, MirrorAt;
      forall p | p in sets && p != particle
        ensures sets[p].Valid() && sets[p].Entries() == old(Views()[p])
      {
        if particle in sets {
          assert home[sets[p]] == p && home[sets[particle]] == particle;
        }
        assert sets[p] in Tries();
        assert old(sets[p].Entries()) == old(Views())[p];
      }
      assert trie in Tries();
    }

    // Take one axon out of a list; a list left empty disappears with its member trie.
    method RemoveAxon(particle: Key, axon: Key) returns (removed: bool)
      requires Valid()
      modifies this, Tries()
      ensures Valid() && fresh(Tries() - old(Tries())) && trie == old(trie)
      ensures removed == (particle in old(lists) && axon in old(lists)[particle])
      ensures !removed ==> lists == old(lists)
      ensures forall i :: particle in old(lists) && 0 <= i < |old(lists)[particle]| && old(lists)[particle][i] == axon ==>
                lists == if |old(lists)[particle]| == 1 then old(lists) - {particle}
                         else old(lists)[particle := old(lists)[particle][..i] + old(lists)[particle][i + 1..]]
    {
      hide Trie.Valid, Trie.Entries, Histogram, Small, Agrees, NoDup, Members, Mirror, MirrorBut;
      MirrorKeys(lists, Views());
      if particle !in sets {
        return false;
      }
      var member := sets[particle];
      var list := lists[particle];
      MirrorOne(lists, Views(), particle);
      MembersHas(list, axon);
      MembersRetain(list, axon);
      RetainNoDup(list, axon);
      SmallOne(lists, particle);
      ghost var views := Views();
      removed := member.Remove(axon);
      OthersKept(particle, member);
      if removed {
        Replace(particle, Retain(list, axon), member);
        forall i | 0 <= i < |list| && list[i] == axon
          ensures Retain(list, axon) == list[..i] + list[i + 1..]
        {
          RetainCuts(list, axon, i);
        }
      } else {
        assert views[particle] - {axon} == views[particle];
        assert Views() == views;
      }
    }

    // Forget a particle altogether.
    method Remove(particle: Key) returns (prior: Option<seq<Key>>)
      requires Valid()
      modifies this
      ensures Valid() && Tries() <= old(Tries()) && trie == old(trie)
      ensures lists == old(lists) - {particle}
      ensures dirty == if particle in old(lists) then old(dirty) + {particle} else old(dirty)
      ensures prior == if particle in old(lists) then Some(old(lists)[particle]) else None
    {
      hide Trie.Valid, Trie.Entries, Histogram, Small, Agrees, NoDup, Members, Mirror, MirrorBut, Owned, Views;
      if particle !in lists {
        assert lists - {particle} == lists;
        return None;
      }
      prior := Some(lists[particle]);
      MirrorFlux(lists, Views(), Views(), particle);
      EmptyNoDup();
      Replace(particle, [], trie);
    }

    // Overwrite a list with the first occurrences of another.
    method Insert(particle: Key, list: seq<Key>) returns (prior: Option<seq<Key>>)
      requires Valid() && |list| < MAX_LEAVES
      modifies this
      ensures Valid() && fresh(Tries() - old(Tries())) && trie == old(trie)
      ensures list == [] ==> lists == old(lists) - {particle}
      ensures list != [] ==> particle in lists && FirstPlaces(list, lists[particle]) && lists == old(lists)[particle := lists[particle]]
      ensures prior == if particle in old(lists) then Some(old(lists)[particle]) else None
    {
      hide Trie.Valid, Trie.Entries, Histogram, Small, Agrees, NoDup, Members, Mirror, MirrorBut, Owned, Views, Dedup, FirstPlaces;
      ghost var before := lists;
      prior := Remove(particle);
      var member, kept := Collect(list);
      DedupFirstPlaces(list);
      KeptNone(list, kept);
      assert member !in home && member !in Tries();
      if kept != [] {
        MirrorFlux(lists, Views(), Views(), particle);
        Replace(particle, kept, member);
        assert lists == before[particle := kept];
      }
    }

    lemma KeptNone(list: seq<Key>, kept: seq<Key>)
      requires FirstPlaces(list, kept)
      ensures kept == [] <==> list == []
    {
      assert kept != [] ==> kept[0] in kept;
      if list != [] {
        assert list[0] in kept;
      }
    }

    // The list a set-backed filter keeps, with its member trie.
    method Collect(list: seq<Key>) returns (member: Trie, kept: seq<Key>)
      requires |list| < MAX_LEAVES
      ensures fresh(member) && member.Valid() && member.Entries() == Members(kept)
      ensures kept == Dedup(list) && NoDup(kept) && |kept| < MAX_LEAVES
    {
      hide Trie.Valid, Trie.Entries, NoDup, Members;
      member := new Trie();
      kept := [];
      EmptyNoDup();
      var i := 0;
      while i < |list|
        invariant 0 <= i <= |list| && fresh(member) && member.Valid() && member.len <= i
        invariant member.Entries() == Members(kept) && kept == Dedup(list[..i])
      {
        var a := list[i];
        assert list[..i + 1][..i] == list[..i];
        MembersHas(kept, a);
        MembersPush(kept, a);
        var digest := ComputeLeafDigest(a, []);
        var isNew := member.Set(a, digest);
        if isNew {
          kept := kept + [a];
        }
        i := i + 1;
      }
      assert list[..i] == list;
      DedupFacts(list);
    }

    // Shorten a list, and its member trie with it.
    method Truncate(particle: Key, len: nat) returns (dropped: nat)
      requires Valid()
      modifies this, Tries()
      ensures Valid() && fresh(Tries() - old(Tries())) && trie == old(trie)
      ensures dropped == if Degree(old(lists), particle) <= len then 0 else Degree(old(lists), particle) - len
      ensures lists == if dropped == 0 then old(lists)
                       else if len == 0 then old(lists) - {particle}
                       else old(lists)[particle := old(lists)[particle][..len]]
    {
      hide Trie.Valid, Trie.Entries, Histogram, Small, Agrees, NoDup, Members, Mirror, MirrorBut, Owned, Views;
      var before := if particle in lists then |lists[particle]| else 0;
      if before <= len {
        return 0;
      }
      dropped := before - len;
      if len == 0 {
        var _ := Remove(particle);
      } else {
        CutList(particle, len);
      }
    }

    method CutList(particle: Key, len: nat)
      requires Valid() && particle in lists && 0 < len < |lists[particle]|
      modifies this, sets.Values
      ensures Valid() && fresh(Tries() - old(Tries())) && trie == old(trie)
      ensures lists == old(lists)[particle := old(lists)[particle][..len]]
    {
      hide Trie.Valid, Trie.Entries, Histogram, Small, Agrees, NoDup, Members, Mirror, MirrorBut;
      MirrorKeys(lists, Views());
      MirrorOne(lists, Views(), particle);
      SmallOne(lists, particle);
      var member := sets[particle];
      var list := lists[particle];
      CutMember(member, list, len);
      OthersKept(particle, member);
      Replace(particle, list[..len], member);
    }

    method CutMember(member: Trie, list: seq<Key>, len: nat)
      requires member.Valid() && member.Entries() == Members(list) && NoDup(list) && len <= |list|
      modifies member
      ensures member.Valid() && member.Entries() == Members(list[..len]) && NoDup(list[..len])
    {
      hide Trie.Valid, Trie.Entries, NoDup, Members;
      var i := len;
      assert list[..len] + list[i..] == list;
      PrefixNoDup(list, len);
      while i < |list|
        invariant len <= i <= |list| && member.Valid()
        invariant member.Entries() == Members(list[..len] + list[i..])
      {
        MembersCut(list, len, i);
        var _ := member.Remove(list[i]);
        i := i + 1;
      }
      assert list[..len] + list[i..] == list[..len];
    }

    method Clear()
      requires Valid()
      modifies this
      ensures Valid() && fresh(Tries()) && lists == map[]
    {
      hide Trie.Valid, Trie.Entries, Histogram, Small, Agrees, Mirror, Outer;
      lists, degrees, sets, dirty, home := map[], map[], map[], {}, map[];
      trie := new Trie();
      EmptyRelation();
      assert Views() == map[];
    }

    // Outer trie slots are u32.
    ghost predicate Room()
      reads this, Tries()
    {
      trie.len + |dirty| < MAX_LEAVES
    }

    // Rewrite the outer leaf of each dirty particle.
    method Flush()
      requires Valid() && Room()
      modifies this`dirty, Tries()
      ensures Valid() && dirty == {} && Tries() == old(Tries())
      ensures trie.Entries() == Outer(lists)
    {
      hide Trie.Valid, Trie.Entries, Histogram, Small, Agrees, Mirror, Owned, Views;
      var todo := dirty;
      dirty := {};
      while todo != {}
        invariant Owned() && Mirror(lists, Views()) && Small(lists) && Histogram(degrees, lists) && Agrees(lists, todo, trie.Entries())
        invariant trie.len + |todo| < MAX_LEAVES && dirty == {} && Tries() == old(Tries())
        decreases todo
      {
        var particle :| particle in todo;
        ghost var es := trie.Entries();
        See(particle);
        assert todo - {particle} + {particle} == todo;
        todo := todo - {particle};
        AgreesStep(lists, todo, es, trie.Entries(), particle);
      }
      AgreesAll(lists, trie.Entries());
    }

    // One particle's current leaf, or its absence, written to the outer trie.
    method See(particle: Key)
      requires Owned() && Mirror(lists, Views()) && Small(lists) && trie.len < MAX_LEAVES
      modifies Tries()
      ensures Owned() && Mirror(lists, Views())
      ensures trie.len <= old(trie.len) + 1
      ensures trie.Entries() == if particle in lists then old(trie.Entries())[particle := Outer(lists)[particle]] else old(trie.Entries()) - {particle}
    {
      hide Trie.Valid, Trie.Entries, Mirror;
      MirrorKeys(lists, Views());
      if particle in lists && particle in sets {
        var digest := OuterLeaf(particle);
        WriteOuter(particle, Some(digest));
      } else {
        WriteOuter(particle, None);
      }
    }

    // Computing an outer leaf hashes the member trie.
    method OuterLeaf(particle: Key) returns (digest: Digest)
      requires Owned() && Mirror(lists, Views()) && Small(lists) && particle in lists && particle in sets
      modifies sets[particle]
      ensures Owned() && Views() == old(Views()) && digest == Outer(lists)[particle]
      ensures trie.Entries() == old(trie.Entries()) && trie.len == old(trie.len)
    {
      hide Trie.Valid, Trie.Entries, Mirror, Small, Outer, Members;
      MirrorOne(lists, Views(), particle);
      SmallOne(lists, particle);
      OuterAt(lists, particle);
      var setRoot := SetRoot(particle);
      digest := ComputeLeafDigest(particle, U64Limbs(|lists[particle]|) + Limbs(setRoot));
    }

    // The commitment to one particle's members. Hashing a member trie changes no entries.
    method SetRoot(particle: Key) returns (d: Digest)
      requires Owned() && particle in sets
      modifies sets[particle]
      ensures Owned() && Views() == old(Views()) && d == Node(Views()[particle])
      ensures trie.Entries() == old(trie.Entries()) && trie.len == old(trie.len)
    {
      hide Trie.Valid, Trie.Entries;
      ghost var views := Views();
      d := sets[particle].Root();
      forall p | p in sets
        ensures sets[p].Valid() && sets[p].Entries() == views[p]
      {
        if p != particle {
          assert home[sets[p]] == p && home[sets[particle]] == particle;
        }
      }
      assert trie != sets[particle];
    }

    method WriteOuter(particle: Key, leaf: Option<Digest>)
      requires Owned() && trie.len < MAX_LEAVES
      modifies trie
      ensures Owned() && Views() == old(Views()) && trie.len <= old(trie.len) + 1
      ensures trie.Entries() == if leaf.Some? then old(trie.Entries())[particle := leaf.value] else old(trie.Entries()) - {particle}
    {
      hide Trie.Valid, Trie.Entries;
      assert forall p :: p in sets ==> sets[p] != trie;
      if leaf.Some? {
        var _ := trie.Set(particle, leaf.value);
      } else {
        var _ := trie.Remove(particle);
      }
    }

    // The commitment: node(S) of one leaf per particle, holding its degree and the root of its member set.
    method Commit() returns (d: Digest)
      requires Valid() && Room()
      modifies this`dirty, Tries()
      ensures Valid() && dirty == {} && Tries() == old(Tries())
      ensures d == Node(Outer(lists))
    {
      hide Trie.Valid, Trie.Entries, Histogram, Small, Agrees, Mirror, Outer;
      Flush();
      ghost var views := Views();
      d := trie.Root();
      assert forall p :: p in sets ==> sets[p] != trie;
      assert Views() == views;
    }

    // Prove what the outer trie says of a particle.
    method Prove(particle: Key) returns (p: TrieProof)
      requires Valid() && Room()
      modifies this`dirty, Tries()
      ensures Valid() && dirty == {} && Tries() == old(Tries()) && BitsInKey(p.steps)
      ensures Accepts(p, Node(Outer(lists)), particle, if particle in lists then Some(Outer(lists)[particle]) else None)
    {
      hide Trie.Valid, Trie.Entries, Histogram, Small, Agrees, Mirror, Accepts, BitsInKey;
      Flush();
      ghost var views := Views();
      p := trie.Prove(particle);
      assert forall q :: q in sets ==> sets[q] != trie;
      assert Views() == views;
    }

    // The root of particle's axon set, and a proof of axon's membership against it.
    method ProveMember(particle: Key, axon: Key) returns (p: Option<(Digest, TrieProof)>)
      requires Valid()
      modifies Tries()
      ensures Valid() && Tries() == old(Tries())
      ensures p.Some? <==> particle in lists
      ensures p.Some? ==>
                && p.value.0 == Node(Members(lists[particle])) && BitsInKey(p.value.1.steps)
                && Accepts(p.value.1, p.value.0, axon, if axon in lists[particle] then Some(LeafDigest(axon, [])) else None)
    {
      hide Trie.Valid, Trie.Entries, Histogram, Small, Agrees, Mirror, Accepts;
      MirrorKeys(lists, Views());
      if particle !in sets {
        return None;
      }
      MirrorOne(lists, Views(), particle);
      MembersHas(lists[particle], axon);
      var setRoot := SetRoot(particle);
      var proof := MemberProof(particle, axon);
      p := Some((setRoot, proof));
    }

    method MemberProof(particle: Key, axon: Key) returns (proof: TrieProof)
      requires Owned() && particle in sets
      modifies sets[particle]
      ensures Owned() && Views() == old(Views()) && trie.Entries() == old(trie.Entries()) && BitsInKey(proof.steps)
      ensures var es := Views()[particle];
              Accepts(proof, Node(es), axon, if axon in es then Some(es[axon]) else None)
    {
      hide Trie.Valid, Trie.Entries, Accepts;
      ghost var views := Views();
      proof := sets[particle].Prove(axon);
      forall p | p in sets
        ensures sets[p].Valid() && sets[p].Entries() == views[p]
      {
        if p != particle {
          assert home[sets[p]] == p && home[sets[particle]] == particle;
        }
      }
      assert trie != sets[particle];
    }
  }
}
