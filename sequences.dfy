/** Sequence helpers shared by the model: Python's list comprehension over a sequence. */
module Sequences {

  /** `[f(x) for x in xs]`, built front to back. */
  function Map<A, B>(f: A --> B, xs: seq<A>): seq<B>
    requires forall i :: 0 <= i < |xs| ==> f.requires(xs[i])
  {
    if |xs| == 0 then [] else Map(f, xs[..|xs| - 1]) + [f(xs[|xs| - 1])]
  }

  /** A map has one result per element, the i-th being `f` of the i-th element. */
  lemma {:induction false} MapAt<A, B>(f: A --> B, xs: seq<A>, i: nat)
    requires forall i :: 0 <= i < |xs| ==> f.requires(xs[i])
    ensures |Map(f, xs)| == |xs|
    ensures i < |xs| ==> Map(f, xs)[i] == f(xs[i])
  {
    if |xs| > 0 {
      MapAt(f, xs[..|xs| - 1], i);
    }
  }

  /** Concatenation is associative. */
  lemma AppendAssociative<T>(a: seq<T>, b: seq<T>, c: seq<T>)
    ensures a + (b + c) == a + b + c
  {
  }

  /** The five pieces of `p1 + p2 + (p3 + p4 + p5)` can be sliced back out. */
  lemma FivePieces<T>(p1: seq<T>, p2: seq<T>, p3: seq<T>, p4: seq<T>, p5: seq<T>)
    ensures var m := p1 + p2 + (p3 + p4 + p5);
      var e1 := |p1|;
      var e2 := e1 + |p2|;
      var e3 := e2 + |p3|;
      var e4 := e3 + |p4|;
      && |m| == e4 + |p5|
      && m[..e1] == p1 && m[e1..e2] == p2 && m[e2..e3] == p3 && m[e3..e4] == p4 && m[e4..] == p5
  {
    var m := p1 + p2 + (p3 + p4 + p5);
    assert m == p1 + p2 + p3 + p4 + p5;
  }
}
