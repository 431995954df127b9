/** Concatenating the image of a sequence, element by element. */
module Seqs {

  function FlatMap<T, U>(f: T -> seq<U>, xs: seq<T>): (r: seq<U>) {
    if xs == [] then [] else FlatMap(f, xs[..|xs| - 1]) + f(xs[|xs| - 1])
  }

  lemma {:induction false} FlatMapConcat<T, U>(f: T -> seq<U>, a: seq<T>, b: seq<T>)
    ensures FlatMap(f, a + b) == FlatMap(f, a) + FlatMap(f, b)
  {
    if b == [] {
      assert a + b == a;
    } else {
      var i, x := b[..|b| - 1], b[|b| - 1];
      FlatMapConcat(f, a, i);
      assert a + b == (a + i) + [x] && b == i + [x];
      FlatMapSnoc(f, a + i, x);
      FlatMapSnoc(f, i, x);
      hide FlatMap;
      Assoc(FlatMap(f, a), FlatMap(f, i), f(x));
    }
  }

  lemma FlatMapSnoc<T, U>(f: T -> seq<U>, xs: seq<T>, x: T)
    ensures FlatMap(f, xs + [x]) == FlatMap(f, xs) + f(x)
  {
    assert (xs + [x])[..|xs|] == xs;
  }

  lemma FlatMapFirst<T, U>(f: T -> seq<U>, xs: seq<T>)
    requires xs != []
    ensures FlatMap(f, xs) == f(xs[0]) + FlatMap(f, xs[1..])
  {
    assert xs == [xs[0]] + xs[1..];
    FlatMapConcat(f, [xs[0]], xs[1..]);
    FlatMapSnoc(f, [], xs[0]);
    assert [] + [xs[0]] == [xs[0]];
  }

  lemma SameSlice<T>(a: seq<T>, b: seq<T>, i: nat, j: nat)
    requires a <= b && i <= j <= |a|
    ensures b[i..j] == a[i..j]
  {
  }

  lemma SliceSnoc<T>(xs: seq<T>, i: nat, j: nat)
    requires i <= j < |xs|
    ensures xs[i..j + 1] == xs[i..j] + [xs[j]]
  {
  }

  lemma Assoc<T>(a: seq<T>, b: seq<T>, c: seq<T>)
    ensures a + (b + c) == (a + b) + c
  {
  }

  lemma PrefixDrop<T>(e: seq<T>, t: seq<T>, buf: seq<T>)
    requires buf <= e + t && |e| <= |buf|
    ensures buf[|e|..] <= t && buf == e + buf[|e|..]
  {
    assert buf[..|e|] == (e + t)[..|e|] == e;
    assert t == (e + t)[|e|..];
  }

  lemma PrefixPrepend<T>(e: seq<T>, t: seq<T>, u: seq<T>)
    requires t <= u
    ensures e + t <= e + u
  {
    assert (e + u)[..|e + t|] == e + t;
  }
}
