// Pending shard mutations: bounded writes and deletions, indexed by position.
module Buffers {
  import opened Wrappers
  import opened Bytes
  import opened Integers
  import opened Records
  import opened Stores
  import opened Scans

  const MAX_VALUE_ELEMENTS := 131_072
  const MAX_PENDING_ELEMENTS := 2_097_152
  const MAX_PENDING_KEYS := 65_536
  const EPHEMERAL: Dimension := 13

  datatype Slab = Slab(d: Dimension, k: Key)
  type Fields = seq<felt>

  // ---------------------------------------------------------------- the dirty list

  function Elements(dirty: seq<(Slab, Fields)>): nat
  {
    if dirty == [] then 0 else Elements(dirty[..|dirty| - 1]) + |dirty[|dirty| - 1].1|
  }

  // positions is the inverse of the dirty list.
  ghost predicate Inverts(positions: map<Slab, nat>, dirty: seq<(Slab, Fields)>)
  {
    && (forall i :: 0 <= i < |dirty| ==> dirty[i].0 in positions && positions[dirty[i].0] == i)
    && (forall x :: x in positions ==> positions[x] < |dirty| && dirty[positions[x]].0 == x)
  }

  // Vec::swap_remove: the last entry takes the place of the removed one.
  function SwapRemove(dirty: seq<(Slab, Fields)>, i: nat): seq<(Slab, Fields)>
    requires i < |dirty|
  {
    var n := |dirty| - 1;
    if i == n then dirty[..n] else dirty[i := dirty[n]][..n]
  }

  lemma {:induction false} ElementsSet(dirty: seq<(Slab, Fields)>, i: nat, e: (Slab, Fields))
    requires i < |dirty|
    ensures Elements(dirty[i := e]) == Elements(dirty) - |dirty[i].1| + |e.1|
    ensures Elements(dirty) >= |dirty[i].1|
  {
    var n := |dirty| - 1;
    if i < n {
      ElementsSet(dirty[..n], i, e);
      assert dirty[i := e][..n] == dirty[..n][i := e];
    } else {
      assert dirty[i := e][..n] == dirty[..n];
    }
  }

  lemma ElementsSwap(dirty: seq<(Slab, Fields)>, i: nat)
    requires i < |dirty|
    ensures Elements(SwapRemove(dirty, i)) == Elements(dirty) - |dirty[i].1|
  {
    var n := |dirty| - 1;
    if i < n {
      ElementsSet(dirty, i, dirty[n]);
      assert dirty[i := dirty[n]][n] == dirty[n];
    }
  }

  lemma SwapInverts(positions: map<Slab, nat>, dirty: seq<(Slab, Fields)>, x: Slab)
    requires Inverts(positions, dirty) && x in positions
    ensures var i := positions[x];
            var left := SwapRemove(dirty, i);
            var rest := positions - {x};
            Inverts(if i < |left| then rest[left[i].0 := i] else rest, left)
  {
    var i := positions[x];
    var n := |dirty| - 1;
    var left := SwapRemove(dirty, i);
    forall j | 0 <= j < |left|
      ensures left[j] == (if j == i then dirty[n] else dirty[j]) && left[j].0 != x
    {
    }
  }

  // The values the dirty list holds.
  ghost function Held(positions: map<Slab, nat>, dirty: seq<(Slab, Fields)>): map<Slab, Fields>
    requires Inverts(positions, dirty)
  {
    map x | x in positions :: dirty[positions[x]].1
  }

  lemma SwapHeld(positions: map<Slab, nat>, dirty: seq<(Slab, Fields)>, x: Slab)
    requires Inverts(positions, dirty) && x in positions
    ensures var i := positions[x];
            var left := SwapRemove(dirty, i);
            var rest := positions - {x};
            var moved := if i < |left| then rest[left[i].0 := i] else rest;
            Inverts(moved, left) && Held(moved, left) == Held(positions, dirty) - {x}
  {
    SwapInverts(positions, dirty, x);
    var i := positions[x];
    var left := SwapRemove(dirty, i);
    var rest := positions - {x};
    var moved := if i < |left| then rest[left[i].0 := i] else rest;
    forall y | y in moved
      ensures y in positions && y != x && left[moved[y]] == dirty[positions[y]]
    {
      assert left[moved[y]] == if moved[y] == i then dirty[|dirty| - 1] else dirty[moved[y]];
    }
    assert moved.Keys == positions.Keys - {x};
  }

  // The cache holds the dirty values and local-only ones, all within the value limit; nothing
  // deleted is held.
  ghost predicate Agrees(cache: map<Slab, Fields>, held: map<Slab, Fields>, deleted: set<Slab>)
  {
    && (forall x :: x in held <==> x in cache && x.d != EPHEMERAL)
    && (forall x :: x in held ==> cache[x] == held[x])
    && (forall x :: x in deleted ==> x !in cache && x.d != EPHEMERAL)
    && (forall x :: x in cache ==> |cache[x]| <= MAX_VALUE_ELEMENTS)
  }

  // The dirty list within the budgets, exactly counted.
  ghost predicate Counted(positions: map<Slab, nat>, dirty: seq<(Slab, Fields)>, deleted: set<Slab>, elements: nat)
  {
    Inverts(positions, dirty) && elements == Elements(dirty) <= MAX_PENDING_ELEMENTS && |dirty| + |deleted| <= MAX_PENDING_KEYS
  }

  lemma AgreesPut(cache: map<Slab, Fields>, held: map<Slab, Fields>, deleted: set<Slab>, x: Slab, v: Fields)
    requires Agrees(cache, held, deleted) && |v| <= MAX_VALUE_ELEMENTS
    ensures x.d != EPHEMERAL ==> Agrees(cache[x := v], held[x := v], deleted - {x})
    ensures x.d == EPHEMERAL ==> Agrees(cache[x := v], held, deleted) && deleted - {x} == deleted
  {
  }

  lemma AgreesDelete(cache: map<Slab, Fields>, held: map<Slab, Fields>, deleted: set<Slab>, x: Slab)
    requires Agrees(cache, held, deleted)
    ensures x.d != EPHEMERAL ==> Agrees(cache - {x}, held - {x}, deleted + {x})
    ensures x.d == EPHEMERAL ==> Agrees(cache - {x}, held, deleted)
  {
  }

  class WriteBuffer {
    var cache: map<Slab, Fields>
    var dirty: seq<(Slab, Fields)>
    var deleted: set<Slab>
    var unknown: Option<StorageError>
    var positions: map<Slab, nat>
    var elements: nat

    ghost predicate Valid()
      reads this
    {
      Counted(positions, dirty, deleted, elements) && Agrees(cache, Held(positions, dirty), deleted)
    }

    constructor ()
      ensures Valid() && unknown == None && cache == map[] && dirty == [] && deleted == {}
    {
      cache, dirty, deleted, unknown, positions, elements := map[], [], {}, None, map[], 0;
    }

    predicate HasRoom(x: Slab)
      reads this
    {
      x in deleted || x in positions || |dirty| + |deleted| < MAX_PENDING_KEYS
    }

    // Stage a value; refused exactly when it, or what is pending with it, is too large.
    method Put(x: Slab, value: Fields) returns (r: Result<(), StorageError>)
      requires Valid()
      modifies this
      ensures Valid() && unknown == old(unknown)
      ensures r.Ok? <==>
        && old(unknown).None? && |value| <= MAX_VALUE_ELEMENTS
        && (x.d != EPHEMERAL ==>
              && old(elements) - (if x in old(positions) then |old(dirty)[old(positions)[x]].1| else 0) + |value| <= MAX_PENDING_ELEMENTS
              && old(HasRoom(x)))
      ensures r.Err? ==> cache == old(cache) && dirty == old(dirty) && deleted == old(deleted)
      ensures r.Ok? ==> cache == old(cache)[x := value] && deleted == old(deleted) - {x}
    {
      hide Elements, Agrees, Inverts, Held;
      if unknown.Some? {
        return Err(unknown.value);
      }
      if |value| > MAX_VALUE_ELEMENTS {
        return Err(Limit);
      }
      AgreesPut(cache, Held(positions, dirty), deleted, x, value);
      if x.d != EPHEMERAL {
        var replaced := Replaced(x);
        var total := elements - replaced + |value|;
        if total > MAX_PENDING_ELEMENTS {
          return Err(Limit);
        }
        if !HasRoom(x) {
          return Err(Limit);
        }
        StageValue(x, value, total);
      }
      cache := cache[x := value];
      r := Ok(());
    }

    method Replaced(x: Slab) returns (n: nat)
      requires Valid()
      ensures x in positions ==> positions[x] < |dirty| && n == |dirty[positions[x]].1|
      ensures x !in positions ==> n == 0
      ensures n <= elements
    {
      n := 0;
      if x in positions {
        ElementsSet(dirty, positions[x], dirty[positions[x]]);
        n := |dirty[positions[x]].1|;
      }
    }

    // The dirty entry, written in place or appended.
    method StageValue(x: Slab, value: Fields, total: nat)
      requires Counted(positions, dirty, deleted, elements) && HasRoom(x)
      requires total == elements - (if x in positions then |dirty[positions[x]].1| else 0) + |value| <= MAX_PENDING_ELEMENTS
      modifies this`dirty, this`deleted, this`positions, this`elements
      ensures Counted(positions, dirty, deleted, elements) && elements == total && deleted == old(deleted) - {x}
      ensures Held(positions, dirty) == old(Held(positions, dirty))[x := value]
    {
      hide Elements;
      deleted := deleted - {x};
      if x in positions {
        ElementsSet(dirty, positions[x], (x, value));
        dirty := dirty[positions[x] := (x, value)];
      } else {
        ElementsPush(dirty, (x, value));
        positions := positions[x := |dirty|];
        dirty := dirty + [(x, value)];
      }
      elements := total;
    }

    // Stage a deletion.
    method Delete(x: Slab) returns (r: Result<(), StorageError>)
      requires Valid()
      modifies this
      ensures Valid() && unknown == old(unknown)
      ensures r.Ok? <==> old(unknown).None? && (x.d != EPHEMERAL ==> old(HasRoom(x)))
      ensures r.Err? ==> cache == old(cache) && dirty == old(dirty) && deleted == old(deleted)
      ensures r.Ok? ==> cache == old(cache) - {x} && deleted == if x.d == EPHEMERAL then old(deleted) else old(deleted) + {x}
    {
      hide Elements, Agrees, Inverts, Held;
      if unknown.Some? {
        return Err(unknown.value);
      }
      AgreesDelete(cache, Held(positions, dirty), deleted, x);
      if x.d != EPHEMERAL {
        if !HasRoom(x) {
          return Err(Limit);
        }
        Unstage(x);
        deleted := deleted + {x};
      }
      cache := cache - {x};
      r := Ok(());
    }

    // Take x off the dirty list, if it is there, by swap-remove.
    method Unstage(x: Slab)
      requires Inverts(positions, dirty) && elements == Elements(dirty)
      modifies this`dirty, this`positions, this`elements
      ensures Inverts(positions, dirty) && elements == Elements(dirty) <= old(elements)
      ensures |dirty| == old(|dirty|) - (if x in old(positions) then 1 else 0)
      ensures Held(positions, dirty) == old(Held(positions, dirty)) - {x}
    {
      hide Elements;
      if x in positions {
        var i := positions[x];
        ElementsSwap(dirty, i);
        SwapInverts(positions, dirty, x);
        SwapHeld(positions, dirty, x);
        elements := elements - |dirty[i].1|;
        positions := positions - {x};
        dirty := SwapRemove(dirty, i);
        if i < |dirty| {
          positions := positions[dirty[i].0 := i];
        }
      }
    }

    // After a commit: nothing pending, and only local-only values cached.
    method Finish()
      requires Valid()
      modifies this
      ensures Valid() && unknown == old(unknown) && dirty == [] && deleted == {}
      ensures cache == map x | x in old(cache) && x.d == EPHEMERAL :: old(cache)[x]
    {
      dirty, deleted, positions, elements := [], {}, map[], 0;
      cache := map x | x in cache && x.d == EPHEMERAL :: cache[x];
    }
  }

  lemma ElementsPush(dirty: seq<(Slab, Fields)>, e: (Slab, Fields))
    ensures Elements(dirty + [e]) == Elements(dirty) + |e.1|
  {
    assert (dirty + [e])[..|dirty|] == dirty;
  }
}
