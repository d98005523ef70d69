// Sorting a finite set by a strict total order.
module Sorting {
  ghost predicate StrictTotal<T(!new)>(lt: (T, T) -> bool)
  {
    && (forall a, b :: lt(a, b) ==> !lt(b, a))
    && (forall a, b :: a == b || lt(a, b) || lt(b, a))
    && (forall a, b, c :: lt(a, b) && lt(b, c) ==> lt(a, c))
  }

  ghost predicate IsLeast<T(!new)>(lt: (T, T) -> bool, s: set<T>, a: T)
  {
    a in s && forall b :: b in s && b != a ==> lt(a, b)
  }

  // Strictly ascending, so without duplicates.
  ghost predicate Ascends<T>(lt: (T, T) -> bool, xs: seq<T>)
  {
    forall i, j :: 0 <= i < j < |xs| ==> lt(xs[i], xs[j])
  }

  lemma {:induction false} LeastExists<T(!new)>(lt: (T, T) -> bool, s: set<T>)
    requires StrictTotal(lt) && s != {}
    ensures exists a :: IsLeast(lt, s, a)
  {
    var k :| k in s;
    if s == {k} {
      assert IsLeast(lt, s, k);
    } else {
      LeastExists(lt, s - {k});
      var f :| IsLeast(lt, s - {k}, f);
      assert IsLeast(lt, s, if lt(f, k) then f else k);
    }
  }

  ghost function TheLeast<T(!new)>(lt: (T, T) -> bool, s: set<T>): (a: T)
    requires StrictTotal(lt) && s != {}
    ensures IsLeast(lt, s, a)
  {
    LeastExists(lt, s);
    var a :| IsLeast(lt, s, a);
    a
  }

  // The elements of s, least first.
  ghost function Sorted<T(!new)>(lt: (T, T) -> bool, s: set<T>): (xs: seq<T>)
    requires StrictTotal(lt)
  {
    if s == {} then [] else [TheLeast(lt, s)] + Sorted(lt, s - {TheLeast(lt, s)})
  }

  lemma {:induction false} SortedFacts<T(!new)>(lt: (T, T) -> bool, s: set<T>)
    requires StrictTotal(lt)
    ensures Ascends(lt, Sorted(lt, s)) && |Sorted(lt, s)| == |s|
    ensures forall x :: x in Sorted(lt, s) <==> x in s
  {
    hide StrictTotal;
    if s != {} {
      var f := TheLeast(lt, s);
      SortedFacts(lt, s - {f});
      PutLeast(lt, s, f, Sorted(lt, s - {f}));
    }
  }

  lemma PutLeast<T(!new)>(lt: (T, T) -> bool, s: set<T>, f: T, xs: seq<T>)
    requires IsLeast(lt, s, f) && Ascends(lt, xs) && |xs| == |s| - 1
    requires forall x :: x in xs <==> x in s - {f}
    ensures Ascends(lt, [f] + xs) && |[f] + xs| == |s|
    ensures forall x :: x in [f] + xs <==> x in s
  {
    var all := [f] + xs;
    forall i, j | 0 <= i < j < |all|
      ensures lt(all[i], all[j])
    {
      assert all[j] == xs[j - 1] && xs[j - 1] in xs;
      if i > 0 {
        assert all[i] == xs[i - 1];
      }
    }
    assert f in s;
    assert forall x :: x in all <==> x == f || x in xs;
  }

  // An ascending sequence of the elements of s is Sorted(s): there is no other.
  lemma {:induction false} SortedUnique<T(!new)>(lt: (T, T) -> bool, s: set<T>, xs: seq<T>)
    requires StrictTotal(lt) && Ascends(lt, xs) && forall x :: x in xs <==> x in s
    ensures xs == Sorted(lt, s)
    decreases |xs|
  {
    if xs == [] {
      assert s == {};
    } else {
      var f, rest := xs[0], xs[1..];
      assert f in xs;
      assert IsLeast(lt, s, f) by {
        forall b | b in s && b != f
          ensures lt(f, b)
        {
          var i :| 0 <= i < |xs| && xs[i] == b;
        }
      }
      forall x
        ensures x in rest <==> x in s - {f}
      {
        if x in rest {
          var i :| 0 <= i < |rest| && rest[i] == x;
          assert xs[i + 1] == x && x in xs && lt(f, x);
        }
        if x in s - {f} {
          var i :| 0 <= i < |xs| && xs[i] == x;
          assert rest[i - 1] == x;
        }
      }
      SortedUnique(lt, s - {f}, rest);
    }
  }

  method Least<T(==, !new)>(lt: (T, T) -> bool, s: set<T>) returns (a: T)
    requires StrictTotal(lt) && s != {}
    ensures IsLeast(lt, s, a) && a == TheLeast(lt, s)
  {
    a :| a in s;
    var rest := s - {a};
    while rest != {}
      invariant rest <= s && a in s
      invariant forall b :: b in s && b !in rest && b != a ==> lt(a, b)
      decreases rest
    {
      var b :| b in rest;
      if lt(b, a) {
        a := b;
      }
      rest := rest - {b};
    }
  }

  // Selecting the least of what is left, over and over.
  method Sort<T(==, !new)>(lt: (T, T) -> bool, s: set<T>) returns (xs: seq<T>)
    requires StrictTotal(lt)
    ensures xs == Sorted(lt, s)
  {
    hide StrictTotal, IsLeast;
    xs := [];
    var rest := s;
    while rest != {}
      invariant rest <= s && xs + Sorted(lt, rest) == Sorted(lt, s)
      decreases rest
    {
      var f := Least(lt, rest);
      InSet(lt, rest, f);
      assert xs + Sorted(lt, rest) == (xs + [f]) + Sorted(lt, rest - {f});
      xs := xs + [f];
      rest := rest - {f};
    }
    assert xs + [] == xs;
  }

  lemma InSet<T(!new)>(lt: (T, T) -> bool, s: set<T>, a: T)
    requires IsLeast(lt, s, a)
    ensures a in s
  {
  }

  lemma {:induction false} SubsetCount<T>(a: set<T>, b: set<T>)
    requires a <= b
    ensures |a| <= |b|
  {
    if x :| x in a {
      SubsetCount(a - {x}, b - {x});
    }
  }
}
