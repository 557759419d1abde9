/** Mapping and filtering respect reordering: the facts behind "independent of row order". */
module Permutation {
  import opened Common

  ghost predicate SameElements<T>(xs: seq<T>, ys: seq<T>) {
    multiset(xs) == multiset(ys)
  }

  function Without<T>(xs: seq<T>, i: nat): seq<T>
    requires i < |xs|
  {
    xs[..i] + xs[i + 1..]
  }

  lemma {:induction false} WithoutElements<T>(xs: seq<T>, i: nat)
    requires i < |xs|
    ensures multiset(xs) == multiset(Without(xs, i)) + multiset{xs[i]}
  {
    assert xs == xs[..i] + [xs[i]] + xs[i + 1..];
  }

  /** If xs reorders ys, then xs less its last element reorders ys less one equal to it. */
  lemma {:induction false} MatchLast<T>(xs: seq<T>, ys: seq<T>) returns (i: nat)
    requires xs != [] && SameElements(xs, ys)
    ensures i < |ys| && ys[i] == xs[|xs| - 1]
    ensures SameElements(xs[..|xs| - 1], Without(ys, i))
  {
    var n := |xs| - 1;
    WithoutElements(xs, n);
    assert Without(xs, n) == xs[..n];
    assert xs[n] in multiset(ys);
    i :| 0 <= i < |ys| && ys[i] == xs[n];
    WithoutElements(ys, i);
    assert multiset(xs[..n]) == multiset(xs) - multiset{xs[n]};
    assert multiset(Without(ys, i)) == multiset(ys) - multiset{xs[n]};
  }

  lemma {:induction false} EmptyReorder<T>(ys: seq<T>)
    requires SameElements([], ys)
    ensures ys == []
  {
    assert |multiset(ys)| == |ys|;
  }

  lemma {:induction false} MapWithout<A, B>(f: A -> B, xs: seq<A>, i: nat)
    requires i < |xs|
    ensures Map(f, Without(xs, i)) == Without(Map(f, xs), i)
  {
  }

  lemma {:induction false} MapReordered<A, B>(f: A -> B, xs: seq<A>, ys: seq<A>)
    requires SameElements(xs, ys)
    ensures SameElements(Map(f, xs), Map(f, ys))
    decreases |xs|
  {
    if xs == [] {
      EmptyReorder(ys);
    } else {
      var n := |xs| - 1;
      var i := MatchLast(xs, ys);
      MapReordered(f, xs[..n], Without(ys, i));
      MapWithout(f, ys, i);
      WithoutElements(Map(f, ys), i);
      assert Map(f, xs) == Map(f, xs[..n]) + [f(xs[n])];
    }
  }

  lemma {:induction false} FilterWithout<A(!new)>(keep: A -> bool, xs: seq<A>, i: nat)
    requires i < |xs|
    ensures multiset(Filter(keep, xs))
         == multiset(Filter(keep, Without(xs, i))) + (if keep(xs[i]) then multiset{xs[i]} else multiset{})
  {
    var kept := if keep(xs[i]) then [xs[i]] else [];
    assert xs == (xs[..i] + [xs[i]]) + xs[i + 1..];
    FilterConcat(keep, xs[..i] + [xs[i]], xs[i + 1..]);
    FilterAppend(keep, xs[..i], xs[i]);
    FilterConcat(keep, xs[..i], xs[i + 1..]);
    assert multiset(kept) == if keep(xs[i]) then multiset{xs[i]} else multiset{};
  }

  lemma {:induction false} FilterReordered<A(!new)>(keep: A -> bool, xs: seq<A>, ys: seq<A>)
    requires SameElements(xs, ys)
    ensures SameElements(Filter(keep, xs), Filter(keep, ys))
    decreases |xs|
  {
    if xs == [] {
      EmptyReorder(ys);
    } else {
      var n := |xs| - 1;
      var i := MatchLast(xs, ys);
      FilterReordered(keep, xs[..n], Without(ys, i));
      FilterWithout(keep, ys, i);
      FilterWithout(keep, xs, n);
      assert Without(xs, n) == xs[..n];
    }
  }

  /** Two listings of the same set, each without repeats, are reorderings of each other. */
  lemma {:induction false} ListingsReorder<T>(xs: seq<T>, ys: seq<T>)
    requires Distinct(xs) && Distinct(ys)
    requires forall x :: x in xs <==> x in ys
    ensures SameElements(xs, ys)
  {
    DistinctMultiset(xs);
    DistinctMultiset(ys);
    assert (set x | x in xs) == (set y | y in ys);
  }

  lemma {:induction false} DistinctMultiset<T>(xs: seq<T>)
    requires Distinct(xs)
    ensures multiset(xs) == multiset(set x | x in xs)
  {
    if xs != [] {
      var n := |xs| - 1;
      DistinctMultiset(xs[..n]);
      assert xs == xs[..n] + [xs[n]];
      assert (set x | x in xs) == (set x | x in xs[..n]) + {xs[n]};
      assert xs[n] !in xs[..n];
    }
  }
}
