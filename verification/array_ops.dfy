/** JavaScript's `Array.prototype.filter` and `Array.prototype.map` on
    immutable sequences, with the indices a filter keeps as the reference. */
module ArrayOps {

  /** The indices of the elements `keep` accepts, in increasing order. */
  ghost function KeptIndices<T>(xs: seq<T>, keep: T -> bool): (ks: seq<nat>)
    ensures forall j :: 0 <= j < |ks| ==> ks[j] < |xs| && keep(xs[ks[j]])
    ensures forall j, j' :: 0 <= j < j' < |ks| ==> ks[j] < ks[j']
    ensures forall i :: 0 <= i < |xs| && keep(xs[i]) ==> i in ks
  {
    if |xs| == 0 then []
    else
      var n := |xs| - 1;
      var init := KeptIndices(xs[..n], keep);
      assert forall j :: 0 <= j < |init| ==> xs[..n][init[j]] == xs[init[j]];
      if keep(xs[n]) then init + [n] else init
  }

  /** `xs.filter(keep)`: the accepted elements, in their original order. */
  function Filter<T>(xs: seq<T>, keep: T -> bool): (ys: seq<T>)
    ensures |ys| == |KeptIndices(xs, keep)|
    ensures forall j :: 0 <= j < |ys| ==> ys[j] == xs[KeptIndices(xs, keep)[j]]
  {
    if |xs| == 0 then []
    else
      var n := |xs| - 1;
      var init := Filter(xs[..n], keep);
      assert forall j :: 0 <= j < |init| ==> init[j] == xs[KeptIndices(xs[..n], keep)[j]];
      if keep(xs[n]) then init + [xs[n]] else init
  }

  /** `xs.map(f)`. */
  function Map<T, U>(xs: seq<T>, f: T -> U): (ys: seq<U>)
    ensures |ys| == |xs|
    ensures forall j :: 0 <= j < |xs| ==> ys[j] == f(xs[j])
  {
    seq(|xs|, j requires 0 <= j < |xs| => f(xs[j]))
  }

  /** The number of elements `keep` rejects. */
  function RejectedCount<T>(xs: seq<T>, keep: T -> bool): nat {
    if |xs| == 0 then 0
    else RejectedCount(xs[..|xs| - 1], keep) + (if keep(xs[|xs| - 1]) then 0 else 1)
  }

  /** Filtering removes exactly the rejected elements. */
  lemma {:induction false} FilterLength<T>(xs: seq<T>, keep: T -> bool)
    ensures |Filter(xs, keep)| == |xs| - RejectedCount(xs, keep)
  {
    if |xs| > 0 {
      FilterLength(xs[..|xs| - 1], keep);
    }
  }

  /** Filtering distributes over concatenation. */
  lemma {:induction false} FilterAppend<T>(a: seq<T>, b: seq<T>, keep: T -> bool)
    ensures Filter(a + b, keep) == Filter(a, keep) + Filter(b, keep)
    decreases |b|
  {
    if |b| == 0 {
      assert a + b == a;
    } else {
      var n := |b| - 1;
      assert (a + b)[..|a + b| - 1] == a + b[..n];
      FilterAppend(a, b[..n], keep);
    }
  }

  /** Mapping distributes over concatenation. */
  lemma MapAppend<T, U>(a: seq<T>, b: seq<T>, f: T -> U)
    ensures Map(a + b, f) == Map(a, f) + Map(b, f)
  {
  }
}
