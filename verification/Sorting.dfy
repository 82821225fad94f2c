/** A stable sort by a comparator, and the uniqueness of its result. */
module Sorting {

  /** `before` behaves like a comparator's Less: a strict weak order. */
  ghost predicate Ordering<T(!new)>(before: (T, T) -> bool) {
    && (forall a, b :: before(a, b) ==> !before(b, a))
    && (forall a, b, c :: before(a, b) && before(b, c) ==> before(a, c))
    && (forall a, b, c :: before(a, c) ==> before(a, b) || before(b, c))
  }

  /** No two different elements tie. */
  ghost predicate TotalOn<T(!new)>(before: (T, T) -> bool, xs: seq<T>) {
    forall a, b | a in xs && b in xs && a != b :: before(a, b) || before(b, a)
  }

  ghost predicate Sorted<T>(xs: seq<T>, before: (T, T) -> bool) {
    forall i, j | 0 <= i < j < |xs| :: !before(xs[j], xs[i])
  }

  /** Insert `x` after every element it does not precede, so equal elements keep their order. */
  function Insert<T>(xs: seq<T>, x: T, before: (T, T) -> bool): (r: seq<T>)
    ensures multiset(r) == multiset(xs) + multiset{x}
    ensures |r| == |xs| + 1
  {
    if xs == [] then [x]
    else if before(x, xs[|xs| - 1]) then
      assert xs == xs[..|xs| - 1] + [xs[|xs| - 1]];
      Insert(xs[..|xs| - 1], x, before) + [xs[|xs| - 1]]
    else xs + [x]
  }

  function Sort<T>(xs: seq<T>, before: (T, T) -> bool): (r: seq<T>)
    ensures multiset(r) == multiset(xs)
    ensures |r| == |xs|
  {
    if xs == [] then []
    else
      assert xs == xs[..|xs| - 1] + [xs[|xs| - 1]];
      Insert(Sort(xs[..|xs| - 1], before), xs[|xs| - 1], before)
  }

  lemma MembersOf<T>(xs: seq<T>, ys: seq<T>)
    requires multiset(xs) == multiset(ys)
    ensures forall a :: a in xs <==> a in ys
  {
    forall a
      ensures a in xs <==> a in ys
    {
      assert a in multiset(xs) <==> a in multiset(ys);
    }
  }

  lemma {:induction false} InsertSorts<T(!new)>(xs: seq<T>, x: T, before: (T, T) -> bool)
    requires Ordering(before) && Sorted(xs, before)
    ensures Sorted(Insert(xs, x, before), before)
  {
    if xs != [] && before(x, xs[|xs| - 1]) {
      var front, last := xs[..|xs| - 1], xs[|xs| - 1];
      InsertSorts(front, x, before);
      var r := Insert(front, x, before);
      forall i | 0 <= i < |r|
        ensures !before(last, r[i])
      {
        assert r[i] in multiset(r);
        assert r[i] in front || r[i] == x;
      }
    } else if xs != [] {
      var last := xs[|xs| - 1];
      forall i | 0 <= i < |xs|
        ensures !before(x, xs[i])
      {
        var y := xs[i];
        assert !before(x, last) && !before(last, y);
      }
    }
  }

  lemma {:induction false} SortSorts<T(!new)>(xs: seq<T>, before: (T, T) -> bool)
    requires Ordering(before)
    ensures Sorted(Sort(xs, before), before)
  {
    if xs != [] {
      SortSorts(xs[..|xs| - 1], before);
      InsertSorts(Sort(xs[..|xs| - 1], before), xs[|xs| - 1], before);
    }
  }

  lemma HeadsAgree<T(!new)>(xs: seq<T>, ys: seq<T>, before: (T, T) -> bool)
    requires Ordering(before) && TotalOn(before, xs)
    requires multiset(xs) == multiset(ys) && Sorted(xs, before) && Sorted(ys, before)
    requires xs != [] && ys != []
    ensures xs[0] == ys[0]
  {
    MembersOf(xs, ys);
    var x, y := xs[0], ys[0];
    assert x in ys && y in xs;
    var i :| 0 <= i < |ys| && ys[i] == x;
    var j :| 0 <= j < |xs| && xs[j] == y;
    assert i > 0 ==> !before(x, y);
    assert j > 0 ==> !before(y, x);
  }

  lemma TailOf<T>(xs: seq<T>)
    requires xs != []
    ensures multiset(xs) == multiset{xs[0]} + multiset(xs[1..])
  {
    assert xs == [xs[0]] + xs[1..];
  }

  /** Without ties, a collection has one sorted arrangement. */
  lemma {:induction false} SortedIsUnique<T(!new)>(xs: seq<T>, ys: seq<T>, before: (T, T) -> bool)
    requires Ordering(before) && TotalOn(before, xs)
    requires multiset(xs) == multiset(ys) && Sorted(xs, before) && Sorted(ys, before)
    ensures xs == ys
    decreases |xs|
  {
    assert |multiset(xs)| == |multiset(ys)|;
    if xs != [] {
      HeadsAgree(xs, ys, before);
      TailOf(xs);
      TailOf(ys);
      var p, q := xs[1..], ys[1..];
      assert multiset(p) == multiset(q) by {
        assert multiset(p) == multiset(xs) - multiset{xs[0]};
        assert multiset(q) == multiset(ys) - multiset{ys[0]};
      }
      assert TotalOn(before, p) by {
        assert forall a | a in p :: a in xs;
      }
      SortedIsUnique(p, q, before);
      assert xs == [xs[0]] + p && ys == [ys[0]] + q;
    }
  }

  /** So the result of sorting does not depend on the order of the input. */
  lemma SortIgnoresOrder<T(!new)>(xs: seq<T>, ys: seq<T>, before: (T, T) -> bool)
    requires Ordering(before) && TotalOn(before, xs) && multiset(xs) == multiset(ys)
    ensures Sort(xs, before) == Sort(ys, before)
  {
    SortSorts(xs, before);
    SortSorts(ys, before);
    MembersOf(Sort(xs, before), xs);
    SortedIsUnique(Sort(xs, before), Sort(ys, before), before);
  }

  /** Sorting and cutting: nothing left out precedes anything kept. */
  lemma KeptPrecedesCut<T(!new)>(xs: seq<T>, before: (T, T) -> bool, count: nat, i: nat, j: nat)
    requires Ordering(before) && i < count <= j < |xs|
    ensures !before(Sort(xs, before)[j], Sort(xs, before)[i])
  {
    SortSorts(xs, before);
  }
}
