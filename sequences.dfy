/** Applying a function to every element of a list, as the row-building
    loops of the pipeline do. */
module Sequences {

  lemma AppendAssociative<T>(a: seq<T>, b: seq<T>, c: seq<T>)
    ensures a + b + c == a + (b + c)
  {
  }

  /** Where the elements of three concatenated lists end up. */
  lemma ThreePartsAt<T>(a: seq<T>, b: seq<T>, c: seq<T>)
    ensures |a + b + c| == |a| + |b| + |c|
    ensures forall i :: 0 <= i < |a| ==> (a + b + c)[i] == a[i]
    ensures forall i :: 0 <= i < |b| ==> (a + b + c)[|a| + i] == b[i]
    ensures forall j :: 0 <= j < |c| ==> (a + b + c)[|a| + |b| + j] == c[j]
  {
  }

  /** Where the results of two maps end up after a list of leading elements. */
  lemma TwoMapsAt<A, B, C>(head: seq<C>, f: A -> C, xs: seq<A>, g: B -> C, ys: seq<B>)
    ensures var s := head + Map(f, xs) + Map(g, ys);
      && |s| == |head| + |xs| + |ys|
      && (forall i :: 0 <= i < |head| ==> s[i] == head[i])
      && (forall i :: 0 <= i < |xs| ==> s[|head| + i] == f(xs[i]))
      && (forall j :: 0 <= j < |ys| ==> s[|head| + |xs| + j] == g(ys[j]))
  {
    MapAt(f, xs);
    MapAt(g, ys);
    ThreePartsAt(head, Map(f, xs), Map(g, ys));
  }

  /** Where the results of a map end up between other elements. */
  lemma MapBetween<A, B>(head: seq<B>, f: A -> B, xs: seq<A>, tail: seq<B>)
    ensures forall j :: 0 <= j < |xs| ==> (head + Map(f, xs) + tail)[|head| + j] == f(xs[j])
  {
    MapAt(f, xs);
  }

  /** `[f(x) for x in xs]`, built from the front as a loop appends. */
  function Map<A, B>(f: A -> B, xs: seq<A>): (r: seq<B>)
    ensures |r| == |xs|
  {
    if xs == [] then [] else Map(f, xs[..|xs| - 1]) + [f(xs[|xs| - 1])]
  }

  /** Element `i` of the result is `f` applied to element `i`. */
  lemma {:induction false} MapAt<A, B>(f: A -> B, xs: seq<A>)
    ensures forall i :: 0 <= i < |xs| ==> Map(f, xs)[i] == f(xs[i])
    decreases |xs|
  {
    if xs != [] {
      MapAt(f, xs[..|xs| - 1]);
    }
  }

  /** One more element at the end gives one more result at the end. */
  lemma MapSnoc<A, B>(f: A -> B, xs: seq<A>, x: A)
    ensures Map(f, xs + [x]) == Map(f, xs) + [f(x)]
  {
    assert (xs + [x])[..|xs|] == xs;
  }

  /** The step of a loop that appends `f(xs[i])` for `i` from 0. */
  lemma MapPrefixStep<A, B>(f: A -> B, xs: seq<A>, i: nat)
    requires i < |xs|
    ensures Map(f, xs[..i + 1]) == Map(f, xs[..i]) + [f(xs[i])]
  {
    assert xs[..i + 1] == xs[..i] + [xs[i]];
    MapSnoc(f, xs[..i], xs[i]);
  }

  lemma {:induction false} MapAppend<A, B>(f: A -> B, xs: seq<A>, ys: seq<A>)
    ensures Map(f, xs + ys) == Map(f, xs) + Map(f, ys)
    decreases |ys|
  {
    if ys == [] {
      assert xs + ys == xs;
    } else {
      var init := ys[..|ys| - 1];
      assert xs + ys == (xs + init) + [ys[|ys| - 1]];
      MapSnoc(f, xs + init, ys[|ys| - 1]);
      MapAppend(f, xs, init);
      MapSnoc(f, init, ys[|ys| - 1]);
      assert ys == init + [ys[|ys| - 1]];
    }
  }
}
