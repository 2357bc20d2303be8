/** Concatenating a list of lists, and where each element of the result comes from. */
module Flatten {

  function Flat<T>(xs: seq<seq<T>>): seq<T> {
    if xs == [] then [] else Flat(xs[..|xs| - 1]) + xs[|xs| - 1]
  }

  lemma FlatNext<T>(xs: seq<seq<T>>, m: nat)
    requires m < |xs|
    ensures Flat(xs[..m + 1]) == Flat(xs[..m]) + xs[m]
  {
    assert xs[..m + 1][..m] == xs[..m];
  }

  lemma FlatWhole<T>(xs: seq<seq<T>>)
    ensures Flat(xs[..|xs|]) == Flat(xs)
  {
    assert xs[..|xs|] == xs;
  }

  lemma {:induction false} FlatHas<T>(xs: seq<seq<T>>, m: nat, i: nat)
    requires m < |xs| && i < |xs[m]|
    ensures xs[m][i] in Flat(xs)
  {
    if m < |xs| - 1 {
      FlatHas(xs[..|xs| - 1], m, i);
    }
  }

  /** Each element of the result comes from its own position. */
  lemma {:induction false} FlatOrigins<T>(xs: seq<seq<T>>) returns (from: seq<(nat, nat)>)
    ensures |from| == |Flat(xs)|
    ensures forall k :: 0 <= k < |from| ==>
              from[k].0 < |xs| && from[k].1 < |xs[from[k].0]| && xs[from[k].0][from[k].1] == Flat(xs)[k]
    ensures forall k, l :: 0 <= k < l < |from| ==> from[k] != from[l]
  {
    from := [];
    if xs != [] {
      var n := |xs| - 1;
      from := FlatOrigins(xs[..n]);
      from := from + seq(|xs[n]|, i requires 0 <= i < |xs[n]| => (n, i));
    }
  }
}
