/** Elements of a sequence at some of its indices. */
module Indices {

  /** The elements at some indices, in their order. */
  function Picked<T>(xs: seq<T>, idx: seq<nat>): (r: seq<T>)
    requires forall k :: 0 <= k < |idx| ==> idx[k] < |xs|
    ensures |r| == |idx| && forall k :: 0 <= k < |idx| ==> r[k] == xs[idx[k]]
  {
    seq(|idx|, k requires 0 <= k < |idx| => xs[idx[k]])
  }

  predicate Within(idx: seq<nat>, n: nat) {
    forall k :: 0 <= k < |idx| ==> idx[k] < n
  }
}
