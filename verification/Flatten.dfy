/** Mapping each element of a list to a list and joining the results. */
module Flatten {
  function FlatTo<A, B>(f: A -> seq<B>, xs: seq<A>, n: nat): seq<B>
    requires n <= |xs|
  {
    if n == 0 then [] else FlatTo(f, xs, n - 1) + f(xs[n - 1])
  }

  function FlatMap<A, B>(f: A -> seq<B>, xs: seq<A>): seq<B> {
    FlatTo(f, xs, |xs|)
  }

  lemma {:induction false} FlatToPrefix<A, B>(f: A -> seq<B>, a: seq<A>, b: seq<A>, n: nat)
    requires n <= |a|
    ensures FlatTo(f, a + b, n) == FlatTo(f, a, n)
  {
    if n > 0 { FlatToPrefix(f, a, b, n - 1); }
  }

  lemma {:induction false} FlatToAppend<A, B>(f: A -> seq<B>, a: seq<A>, b: seq<A>, n: nat)
    requires n <= |b|
    ensures FlatTo(f, a + b, |a| + n) == FlatMap(f, a) + FlatTo(f, b, n)
  {
    if n == 0 {
      FlatToPrefix(f, a, b, |a|);
    } else {
      FlatToAppend(f, a, b, n - 1);
      assert (a + b)[|a| + n - 1] == b[n - 1];
    }
  }

  lemma FlatMapAppend<A, B>(f: A -> seq<B>, a: seq<A>, b: seq<A>)
    ensures FlatMap(f, a + b) == FlatMap(f, a) + FlatMap(f, b)
  {
    FlatToAppend(f, a, b, |b|);
  }

  lemma FlatMapOne<A, B>(f: A -> seq<B>, x: A)
    ensures FlatMap(f, [x]) == f(x)
  {
    assert FlatTo(f, [x], 0) == [];
  }

  lemma FlatMapStep<A, B>(f: A -> seq<B>, xs: seq<A>, x: A)
    ensures FlatMap(f, xs + [x]) == FlatMap(f, xs) + f(x)
  {
    FlatMapAppend(f, xs, [x]);
    FlatMapOne(f, x);
  }

  /** A mapping to lists of one element keeps positions. */
  lemma {:induction false} SinglesAt<A, B>(f: A -> seq<B>, xs: seq<A>, n: nat)
    requires n <= |xs| && forall x :: x in xs ==> |f(x)| == 1
    ensures |FlatTo(f, xs, n)| == n
    ensures forall i :: 0 <= i < n ==> FlatTo(f, xs, n)[i] == f(xs[i])[0]
  {
    if n > 0 { SinglesAt(f, xs, n - 1); }
  }

  lemma FlatMapSplit<A, B>(f: A -> seq<B>, xs: seq<A>, n: nat)
    requires n <= |xs|
    ensures FlatMap(f, xs) == FlatTo(f, xs, n) + FlatMap(f, xs[n..])
  {
    assert xs[..n] + xs[n..] == xs;
    FlatMapAppend(f, xs[..n], xs[n..]);
    FlatToPrefix(f, xs[..n], xs[n..], n);
  }
}
