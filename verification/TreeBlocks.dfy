/** A node's whole block over a draft tree, and the compaction of an accepted path. */
module TreeBlocks {
  import opened Decode
  import opened Indices
  import opened TargetModel
  import opened KvCache
  import opened Masks
  import opened Tree
  import opened TreeVerify

  // ----- one node's layers -----

  /** One node's block over a tree written at `start`: the new buffers and each node's row. */
  function TreeBlock(ls: seq<Layer>, caches: Caches, xs: seq<Row>, start: nat, t: Topology)
    : (r: (Caches, seq<Row>))
    requires |caches| == |ls| && |xs| == Size(t) && Room(Overwrite, caches, start + |xs|)
    ensures |r.0| == |ls| && |r.1| == |xs|
    decreases ls
  {
    if ls == [] then ([], xs)
    else
      var kv := TreeBuf(ls[0], caches[0], xs, start, t);
      var rest := TreeBlock(ls[1..], caches[1..], TreeAttended(ls[0], kv, xs, start, t), start, t);
      ([kv] + rest.0, rest.1)
  }

  predicate Gatherable(n: nat, start: nat, keep: seq<nat>) {
    start + |keep| <= n && forall k :: 0 <= k < |keep| ==> start + keep[k] < n
  }

  /** A buffer after the slots `start + keep[k]` have been copied to `start + k`; an index out of
      range is refused. */
  function Compact(kv: seq<KV>, start: nat, keep: seq<nat>): (c: seq<KV>)
    ensures |c| == |kv|
  {
    if Gatherable(|kv|, start, keep)
    then kv[..start] + Picked(kv[start..], keep) + kv[start + |keep|..]
    else kv
  }

  function CompactAll(caches: Caches, start: nat, keep: seq<nat>): (c: Caches)
    ensures |c| == |caches| && forall k :: 0 <= k < |c| ==> c[k] == Compact(caches[k], start, keep)
  {
    seq(|caches|, k requires 0 <= k < |caches| => Compact(caches[k], start, keep))
  }

  /** The eager cache keeps exactly the listed positions; the fixed buffer agrees on all of them. */
  lemma {:induction false} EagerGatherAgrees(kv: seq<KV>, start: nat, keep: seq<nat>)
    requires Gatherable(|kv|, start, keep)
    ensures var abs := seq(start, i => i) + seq(|keep|, k requires 0 <= k < |keep| => start + keep[k]);
            Compact(kv, start, keep)[..start + |keep|] == Picked(kv, abs)
  {
    var first, rest := seq(start, i => i), seq(|keep|, k requires 0 <= k < |keep| => start + keep[k]);
    assert Picked(kv, first) == kv[..start];
    forall k | 0 <= k < |keep| ensures Picked(kv, rest)[k] == Picked(kv[start..], keep)[k] {}
    assert Picked(kv, rest) == Picked(kv[start..], keep);
    assert Picked(kv, first + rest) == Picked(kv, first) + Picked(kv, rest);
  }

  /** A layer's buffer after the tree pass, compacted onto a chain, holds that chain's text. */
  lemma {:induction false} CompactExact(l: Layer, kv: seq<KV>, pre: seq<Row>, xs: seq<Row>, t: Topology, i: nat)
    requires |xs| == Size(t) && i < Size(t) && |pre| + |xs| <= |kv|
    requires kv[..|pre|] == Projected(l, pre, 0)
    ensures var kv' := Compact(TreeBuf(l, kv, xs, |pre|, t), |pre|, Chain(t, i));
            var text := Text(pre, xs, t, i);
            |text| <= |kv'| && kv'[..|text|] == Projected(l, text, 0)
  {
    hide Forest, Size, Depth, Chain, Projected, TreeKeys, TreeBuf, Picked;
    var c, b := Chain(t, i), TreeBuf(l, kv, xs, |pre|, t);
    ChainFits(t, i);
    ProjectedPath(l, pre, xs, t, c);
    var keys := TreeKeys(l, xs, |pre|, t);
    assert Picked(b[|pre|..], c) == Picked(keys, c) by {
      forall k | 0 <= k < |c| ensures b[|pre|..][c[k]] == keys[c[k]] {
        assert keys[c[k]] == b[|pre|..|pre| + |xs|][c[k]];
      }
    }
  }

  /** A chain never has more nodes than the tree. */
  lemma {:induction false} ChainFits(t: Topology, i: nat)
    requires i < Size(t)
    ensures |Chain(t, i)| <= Size(t)
  {
    var c := Chain(t, i);
    forall a, b | 0 <= a < b < |c| ensures c[a] != c[b] {
      assert Depth(t, c[a]) == a && Depth(t, c[b]) == b;
    }
    DistinctFit(c, Size(t));
  }

  lemma {:induction false} DistinctFit(c: seq<nat>, n: nat)
    requires forall a :: 0 <= a < |c| ==> c[a] < n
    requires forall a, b :: 0 <= a < b < |c| ==> c[a] != c[b]
    ensures |c| <= n
    decreases n
  {
    if c != [] {
      assert c[0] < n;
    }
    if n == 0 {
    } else if k :| 0 <= k < |c| && c[k] == n - 1 {
      var d := c[..k] + c[k + 1..];
      DistinctFit(d, n - 1);
    } else {
      DistinctFit(c, n - 1);
    }
  }

  /** Every node of the tree gets the row recomputing its own text gives, whatever the scratch
      slots held; and compacting onto any chain leaves buffers that hold that chain's text. */
  lemma {:induction false} TreeBlockExact(ls: seq<Layer>, caches: Caches, pre: seq<Row>, xs: seq<Row>, t: Topology,
                                          i: nat)
    requires |caches| == |ls| && |xs| == Size(t) && i < Size(t)
    requires Holds(ls, caches, pre) && Room(Overwrite, caches, |pre| + |xs|)
    ensures var (caches', ys) := TreeBlock(ls, caches, xs, |pre|, t);
            BlockRows(ls, Text(pre, xs, t, i)) == Text(BlockRows(ls, pre), ys, t, i) &&
            Holds(ls, CompactAll(caches', |pre|, Chain(t, i)), Text(pre, xs, t, i))
    decreases ls
  {
    hide Forest, Size, Depth, Text, Chain, TreeAttended, TreeBuf, LayerRows, Projected, Compact;
    if ls != [] {
      var l := ls[0];
      var kv := TreeBuf(l, caches[0], xs, |pre|, t);
      var ys := TreeAttended(l, kv, xs, |pre|, t);
      ChainExact(l, caches[0], pre, xs, t, i);
      CompactExact(l, caches[0], pre, xs, t, i);
      TreeBlockExact(ls[1..], caches[1..], LayerRows(l, pre), ys, t, i);
      var rest := TreeBlock(ls[1..], caches[1..], ys, |pre|, t);
      var all := CompactAll([kv] + rest.0, |pre|, Chain(t, i));
      assert all[1..] == CompactAll(rest.0, |pre|, Chain(t, i));
    }
  }

  lemma {:induction false} TreeBlockKeepsRoom(ls: seq<Layer>, caches: Caches, xs: seq<Row>, start: nat, t: Topology)
    requires |caches| == |ls| && |xs| == Size(t) && Room(Overwrite, caches, start + |xs|)
    ensures var r := TreeBlock(ls, caches, xs, start, t);
            forall i :: 0 <= i < |ls| ==> |r.0[i]| == |caches[i]|
    decreases ls
  {
    if ls != [] {
      var kv := TreeBuf(ls[0], caches[0], xs, start, t);
      TreeBlockKeepsRoom(ls[1..], caches[1..], TreeAttended(ls[0], kv, xs, start, t), start, t);
    }
  }

  /** A tree block run twice on the same nodes leaves what one run leaves, whatever its scratch slots held:
      the runs that warm up a new topology do no harm. */
  lemma {:induction false} TreeRunTwice(ls: seq<Layer>, caches: Caches, xs: seq<Row>, start: nat, t: Topology)
    requires |caches| == |ls| && |xs| == Size(t) && Room(Overwrite, caches, start + |xs|)
    ensures var r := TreeBlock(ls, caches, xs, start, t);
            Room(Overwrite, r.0, start + |xs|) && TreeBlock(ls, r.0, xs, start, t) == r
    decreases ls
  {
    hide TreeAttended;
    if ls != [] {
      var kv := TreeBuf(ls[0], caches[0], xs, start, t);
      assert TreeBuf(ls[0], kv, xs, start, t) == kv;
      var ys := TreeAttended(ls[0], kv, xs, start, t);
      var rest := TreeBlock(ls[1..], caches[1..], ys, start, t);
      TreeRunTwice(ls[1..], caches[1..], ys, start, t);
      assert ([kv] + rest.0)[1..] == rest.0;
    }
  }

  /** The first i layers done, the rest to do. */
  lemma {:induction false} TreeBlockUnroll(ls: seq<Layer>, caches: Caches, i: nat, xs: seq<Row>, start: nat,
                                           t: Topology)
    requires |caches| == |ls| && i < |ls| && |xs| == Size(t) && Room(Overwrite, caches[i..], start + |xs|)
    ensures start + |xs| <= |caches[i]| && Room(Overwrite, caches[i + 1..], start + |xs|)
    ensures var kv := TreeBuf(ls[i], caches[i], xs, start, t);
            var rest := TreeBlock(ls[i + 1..], caches[i + 1..], TreeAttended(ls[i], kv, xs, start, t), start, t);
            TreeBlock(ls[i..], caches[i..], xs, start, t) == ([kv] + rest.0, rest.1)
  {
    assert ls[i..][1..] == ls[i + 1..] && caches[i..][1..] == caches[i + 1..];
    assert caches[i..][0] == caches[i];
    assert caches[i + 1..] == caches[i..][1..];
  }
}
