/** Sequence operations the source gets from `Array.prototype`: `filter`, and the order-preserving
    subsequence relation it establishes. */
module Seqs {
  import opened Wrappers

  /** `xs` occurs in `ys` in the same order, possibly with elements of `ys` left out. */
  predicate SubseqOf<T(==)>(xs: seq<T>, ys: seq<T>)
    decreases |ys|
  {
    xs == [] ||
    (ys != [] && ((xs[0] == ys[0] && SubseqOf(xs[1..], ys[1..])) || SubseqOf(xs, ys[1..])))
  }

  lemma {:induction false} SubseqOfSelf<T>(xs: seq<T>)
    ensures SubseqOf(xs, xs)
    decreases |xs|
  {
    if xs != [] {
      SubseqOfSelf(xs[1..]);
    }
  }

  lemma {:induction false} SubseqOfTransitive<T>(a: seq<T>, b: seq<T>, c: seq<T>)
    requires SubseqOf(a, b) && SubseqOf(b, c)
    ensures SubseqOf(a, c)
    decreases |c|
  {
    if a != [] {
      if b[0] == c[0] && SubseqOf(b[1..], c[1..]) {
        if a[0] == b[0] && SubseqOf(a[1..], b[1..]) {
          SubseqOfTransitive(a[1..], b[1..], c[1..]);
        } else {
          SubseqOfTransitive(a, b[1..], c[1..]);
        }
      } else {
        SubseqOfTransitive(a, b, c[1..]);
      }
    }
  }

  /** Every element of a subsequence is an element of the sequence it was drawn from. */
  lemma {:induction false} SubseqOfMembers<T>(xs: seq<T>, ys: seq<T>)
    requires SubseqOf(xs, ys)
    ensures forall x :: x in xs ==> x in ys
    decreases |ys|
  {
    if xs != [] {
      if xs[0] == ys[0] && SubseqOf(xs[1..], ys[1..]) {
        SubseqOfMembers(xs[1..], ys[1..]);
        assert forall x :: x in xs ==> x == xs[0] || x in xs[1..];
      } else {
        SubseqOfMembers(xs, ys[1..]);
      }
    }
  }

  /** `xs.filter(p)`: the elements satisfying `p`, in their original order. */
  function Filter<T(==,!new)>(p: T -> bool, xs: seq<T>): (r: seq<T>)
    ensures |r| <= |xs|
    ensures forall x :: x in r <==> x in xs && p(x)
    ensures SubseqOf(r, xs)
    decreases |xs|
  {
    if xs == [] then []
    else
      var rest := Filter(p, xs[1..]);
      assert forall x :: x in xs <==> x == xs[0] || x in xs[1..];
      if p(xs[0]) then [xs[0]] + rest else rest
  }

  /** A filter leaves a sequence alone when every element passes. */
  lemma {:induction false} FilterAllPass<T(!new)>(p: T -> bool, xs: seq<T>)
    requires forall i :: 0 <= i < |xs| ==> p(xs[i])
    ensures Filter(p, xs) == xs
    decreases |xs|
  {
    if xs != [] {
      FilterAllPass(p, xs[1..]);
    }
  }

  /** Filtering a concatenation filters each part. */
  lemma {:induction false} FilterAppend<T(!new)>(p: T -> bool, xs: seq<T>, ys: seq<T>)
    ensures Filter(p, xs + ys) == Filter(p, xs) + Filter(p, ys)
    decreases |xs|
  {
    if xs == [] {
      assert xs + ys == ys;
    } else {
      assert (xs + ys)[0] == xs[0];
      assert (xs + ys)[1..] == xs[1..] + ys;
      FilterAppend(p, xs[1..], ys);
    }
  }
}
