/** Small building blocks shared by the models: options, and facts about sequences. */
module Common {

  datatype Option<+T> = None | Some(value: T)

  function Min(a: int, b: int): int {
    if a <= b then a else b
  }

  lemma {:induction false} PrefixStep<T>(xs: seq<T>, i: nat)
    requires i < |xs|
    ensures xs[..i + 1] == xs[..i] + [xs[i]]
  {
  }

  lemma {:induction false} SliceOfRest<T>(xs: seq<T>, n: nat, i: nat, j: nat)
    requires n <= i <= j <= |xs|
    ensures xs[n..][i - n..j - n] == xs[i..j]
  {
  }

  lemma {:induction false} Overwrite<K, V>(m: map<K, V>, k: K, v: V, w: V)
    ensures m[k := v][k := w] == m[k := w]
  {
  }

  lemma {:induction false} Overwritten<K, V>(m: map<K, V>, k: K)
    requires k in m
    ensures m == m[k := m[k]]
  {
  }

  ghost predicate Distinct<T>(xs: seq<T>) {
    forall i, j | 0 <= i < j < |xs| :: xs[i] != xs[j]
  }

  /** `f` applied to every element, in order. */
  function Map<A, B>(f: A -> B, xs: seq<A>): (ys: seq<B>)
    ensures |ys| == |xs|
    ensures forall i | 0 <= i < |xs| :: ys[i] == f(xs[i])
  {
    seq(|xs|, i requires 0 <= i < |xs| => f(xs[i]))
  }

  /** The elements that satisfy `keep`, in order. */
  function Filter<A(!new)>(keep: A -> bool, xs: seq<A>): (ys: seq<A>)
    ensures forall x :: x in ys <==> x in xs && keep(x)
    ensures |ys| <= |xs|
  {
    if xs == [] then []
    else if keep(xs[|xs| - 1]) then Filter(keep, xs[..|xs| - 1]) + [xs[|xs| - 1]]
    else Filter(keep, xs[..|xs| - 1])
  }

  lemma FilterDistinct<A(!new)>(keep: A -> bool, xs: seq<A>)
    requires Distinct(xs)
    ensures Distinct(Filter(keep, xs))
  {
    if xs != [] {
      FilterDistinct(keep, xs[..|xs| - 1]);
    }
  }

  lemma FilterAppend<A(!new)>(keep: A -> bool, xs: seq<A>, x: A)
    ensures Filter(keep, xs + [x]) == Filter(keep, xs) + (if keep(x) then [x] else [])
  {
    assert (xs + [x])[..|xs|] == xs;
  }

  lemma FilterConcat<A(!new)>(keep: A -> bool, xs: seq<A>, ys: seq<A>)
    ensures Filter(keep, xs + ys) == Filter(keep, xs) + Filter(keep, ys)
  {
    if ys == [] {
      assert xs + ys == xs;
    } else {
      var n := |ys| - 1;
      assert (xs + ys)[..|xs + ys| - 1] == xs + ys[..n];
      FilterConcat(keep, xs, ys[..n]);
    }
  }

  /** A listing of distinct numbers from 1..bound has at most `bound` entries. */
  lemma DistinctBounded(xs: seq<nat>, bound: nat)
    requires Distinct(xs)
    requires forall x | x in xs :: 1 <= x <= bound
    ensures |xs| <= bound
  {
    var members := set x | x in xs;
    DistinctCardinality(xs, members);
    SubsetCardinality(members, UpTo(bound));
  }

  /** The numbers 1..n. */
  function UpTo(n: nat): (range: set<nat>)
    ensures |range| == n
    ensures forall x :: x in range <==> 1 <= x <= n
  {
    if n == 0 then {} else UpTo(n - 1) + {n}
  }

  lemma DistinctCardinality<T>(xs: seq<T>, members: set<T>)
    requires Distinct(xs)
    requires members == set x | x in xs
    ensures |members| == |xs|
  {
    if xs != [] {
      var n := |xs| - 1;
      var rest := set x | x in xs[..n];
      DistinctCardinality(xs[..n], rest);
      assert xs == xs[..n] + [xs[n]];
      assert members == rest + {xs[n]};
    }
  }

  lemma SubsetCardinality<T>(a: set<T>, b: set<T>)
    requires a <= b
    ensures |a| <= |b|
  {
    assert b == a + (b - a);
  }
}
