/** Sorting by a strict order, and why a strictly sorted arrangement is unique. */
module Sorting {
  import opened Basics

  /** `less` is a strict total order on the members of `s`. */
  ghost predicate Linear<T(!new)>(s: set<T>, less: (T, T) -> bool) {
    && (forall a, b | a in s && b in s && less(a, b) :: !less(b, a))
    && (forall a, b, c | a in s && b in s && c in s && less(a, b) && less(b, c) :: less(a, c))
    && (forall a, b | a in s && b in s && a != b :: less(a, b) || less(b, a))
  }

  ghost predicate Ascending<T(!new)>(xs: seq<T>, less: (T, T) -> bool) {
    forall i, j | 0 <= i < j < |xs| :: less(xs[i], xs[j])
  }

  predicate NoRepeats<T(==)>(xs: seq<T>) {
    forall i, j | 0 <= i < j < |xs| :: xs[i] != xs[j]
  }

  function Elements<T>(xs: seq<T>): set<T> {
    set x | x in xs
  }

  /** Stable insertion: `x` stood before `xs`, so it stays before its equals. */
  function Insert<T>(x: T, xs: seq<T>, less: (T, T) -> bool): seq<T> {
    if xs == [] || !less(xs[0], x) then [x] + xs
    else [xs[0]] + Insert(x, xs[1..], less)
  }

  function Sort<T>(xs: seq<T>, less: (T, T) -> bool): seq<T> {
    if xs == [] then [] else Insert(xs[0], Sort(xs[1..], less), less)
  }

  lemma {:induction false} InsertKeeps<T>(x: T, xs: seq<T>, less: (T, T) -> bool)
    ensures multiset(Insert(x, xs, less)) == multiset(xs) + multiset{x}
    ensures |Insert(x, xs, less)| == |xs| + 1
  {
    if xs == [] || !less(xs[0], x) {
    } else {
      InsertKeeps(x, xs[1..], less);
      assert xs == [xs[0]] + xs[1..];
    }
  }

  lemma {:induction false} SortKeeps<T>(xs: seq<T>, less: (T, T) -> bool)
    ensures multiset(Sort(xs, less)) == multiset(xs)
    ensures |Sort(xs, less)| == |xs|
  {
    if xs != [] {
      SortKeeps(xs[1..], less);
      InsertKeeps(xs[0], Sort(xs[1..], less), less);
      assert xs == [xs[0]] + xs[1..];
    }
  }

  lemma MembersOf<T>(xs: seq<T>, ys: seq<T>)
    requires multiset(xs) == multiset(ys)
    ensures Elements(xs) == Elements(ys) && |xs| == |ys|
    ensures forall x :: x in xs <==> x in ys
  {
    forall x ensures x in xs <==> x in ys {
      assert x in xs <==> x in multiset(xs);
      assert x in ys <==> x in multiset(ys);
    }
    assert |xs| == |multiset(xs)|;
  }

  lemma InsertMembers<T>(x: T, xs: seq<T>, less: (T, T) -> bool)
    ensures forall y :: y in Insert(x, xs, less) <==> y == x || y in xs
  {
    InsertKeeps(x, xs, less);
    MembersOf(Insert(x, xs, less), [x] + xs);
  }

  lemma AscendingPrepend<T(!new)>(x: T, xs: seq<T>, less: (T, T) -> bool)
    requires Ascending(xs, less) && forall y :: y in xs ==> less(x, y)
    ensures Ascending([x] + xs, less)
  {
  }

  lemma AscendingBefore<T(!new)>(xs: seq<T>, less: (T, T) -> bool, a: nat, b: nat)
    requires Ascending(xs, less) && a < |xs| && b < |xs| && less(xs[a], xs[b]) && !less(xs[b], xs[a])
    ensures a < b
  {
  }

  lemma {:induction false} InsertAscends<T(!new)>(x: T, xs: seq<T>, less: (T, T) -> bool, s: set<T>)
    requires Linear(s, less) && x in s && x !in xs
    requires forall y :: y in xs ==> y in s
    requires Ascending(xs, less)
    ensures Ascending(Insert(x, xs, less), less)
  {
    if xs == [] {
    } else if !less(xs[0], x) {
      assert xs[0] in s && less(x, xs[0]);
      forall y | y in xs ensures less(x, y) {
        var j :| 0 <= j < |xs| && xs[j] == y;
        if j > 0 {
          assert less(xs[0], xs[j]);
        }
      }
      AscendingPrepend(x, xs, less);
    } else {
      InsertAscends(x, xs[1..], less, s);
      InsertMembers(x, xs[1..], less);
      AscendingPrepend(xs[0], Insert(x, xs[1..], less), less);
    }
  }

  lemma LinearSubset<T(!new)>(small: set<T>, s: set<T>, less: (T, T) -> bool)
    requires Linear(s, less) && small <= s
    ensures Linear(small, less)
  {
  }

  lemma {:induction false} SortAscends<T(!new)>(xs: seq<T>, less: (T, T) -> bool)
    requires Linear(Elements(xs), less) && NoRepeats(xs)
    ensures Ascending(Sort(xs, less), less)
    ensures multiset(Sort(xs, less)) == multiset(xs)
  {
    SortKeeps(xs, less);
    if xs != [] {
      LinearSubset(Elements(xs[1..]), Elements(xs), less);
      SortAscends(xs[1..], less);
      MembersOf(Sort(xs[1..], less), xs[1..]);
      InsertAscends(xs[0], Sort(xs[1..], less), less, Elements(xs));
    }
  }

  lemma HasElements<T>(xs: seq<T>)
    requires xs != []
    ensures Elements(xs) != {}
  {
    assert xs[0] in Elements(xs);
  }

  /** Two strictly ascending arrangements of the same elements are the same sequence. */
  lemma {:induction false} AscendingUnique<T(!new)>(xs: seq<T>, ys: seq<T>, less: (T, T) -> bool)
    requires Ascending(xs, less) && Ascending(ys, less)
    requires Elements(xs) == Elements(ys)
    requires forall a, b | a in xs && b in xs && less(a, b) :: !less(b, a)
    ensures xs == ys
  {
    if xs == [] {
      if ys != [] {
        HasElements(ys);
      }
    } else {
      assert xs[0] in Elements(ys);
      assert ys != [];
      assert ys[0] in Elements(xs);
      assert xs[0] == ys[0];
      assert Elements(xs[1..]) == Elements(ys[1..]) by {
        forall y ensures y in xs[1..] <==> y in ys[1..] {
          if y in xs[1..] {
            assert y in Elements(xs);
            assert less(xs[0], y);
          }
          if y in ys[1..] {
            assert y in Elements(ys);
            assert less(ys[0], y);
          }
        }
      }
      AscendingUnique(xs[1..], ys[1..], less);
    }
  }

  /** The members of a finite set in ascending order. */
  ghost function SortSet<T(!new)>(s: set<T>, less: (T, T) -> bool): seq<T> {
    if s == {} then []
    else
      var x :| x in s;
      Insert(x, SortSet(s - {x}, less), less)
  }

  lemma {:induction false} SortSetMembers<T(!new)>(s: set<T>, less: (T, T) -> bool)
    ensures Elements(SortSet(s, less)) == s
    ensures |SortSet(s, less)| == |s|
  {
    if s != {} {
      var x :| x in s && SortSet(s, less) == Insert(x, SortSet(s - {x}, less), less);
      SortSetMembers(s - {x}, less);
      InsertKeeps(x, SortSet(s - {x}, less), less);
      InsertMembers(x, SortSet(s - {x}, less), less);
      var rest := SortSet(s - {x}, less);
      forall y ensures y in Elements(SortSet(s, less)) <==> y in s {
        assert y in rest <==> y in Elements(rest);
      }
    }
  }

  lemma {:induction false} SortSetAscends<T(!new)>(s: set<T>, less: (T, T) -> bool)
    requires Linear(s, less)
    ensures Ascending(SortSet(s, less), less)
  {
    if s != {} {
      var x :| x in s && SortSet(s, less) == Insert(x, SortSet(s - {x}, less), less);
      var rest := SortSet(s - {x}, less);
      LinearSubset(s - {x}, s, less);
      SortSetAscends(s - {x}, less);
      SortSetMembers(s - {x}, less);
      forall y ensures y in rest <==> y in s - {x} {
        assert y in rest <==> y in Elements(rest);
      }
      InsertAscends(x, rest, less, s);
    }
  }

  lemma BelowLinear(s: set<string>)
    ensures Linear(s, Below)
  {
    forall a, b { CompareFlips(a, b); }
    forall a, b, c | Below(a, b) && Below(b, c) { CompareTransitive(a, b, c); }
  }

  lemma KeyBelowLinear(s: set<Key>)
    ensures Linear(s, KeyBelow)
  {
    forall a, b { CompareKeysFlips(a, b); }
    forall a, b, c | KeyBelow(a, b) && KeyBelow(b, c) { CompareKeysTransitive(a, b, c); }
  }
}
