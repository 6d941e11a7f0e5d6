/** One pass over a draft tree: every node attends the committed prefix and its own ancestors in
    scratch slots; afterwards the accepted path is compacted onto the prefix. */
module TreeVerify {
  import opened Decode
  import opened Indices
  import opened TargetModel
  import opened KvCache
  import opened Masks
  import opened Tree

  /** The keys of the tree's nodes, each at its own depth past the prefix. */
  function TreeKeys(l: Layer, xs: seq<Row>, start: nat, t: Topology): (kv: seq<KV>)
    requires |xs| == Size(t)
    ensures |kv| == |xs|
    ensures forall i :: 0 <= i < |xs| ==> kv[i] == l.project(xs[i], start + Depth(t, i))
  {
    seq(|xs|, i requires 0 <= i < |xs| => l.project(xs[i], start + Depth(t, i)))
  }

  /** Node i's mask over the whole buffer: the prefix and its ancestors' scratch slots, both within
      the window when there is one. */
  function TreeRow(window: nat, n: nat, start: nat, t: Topology, i: nat): (row: seq<bool>)
    requires i < Size(t) && start + Size(t) <= n
    ensures |row| == n
    ensures forall c :: 0 <= c < n ==> (row[c] <==> Lets(window, start, t, i, c))
  {
    seq(n, c requires 0 <= c < n => Lets(window, start, t, i, c))
  }

  predicate Lets(window: nat, start: nat, t: Topology, i: nat, c: nat)
    requires i < Size(t)
  {
    if c < start then window == 0 || start + Depth(t, i) - c < window
    else if c < start + Size(t) then
      IsAncestor(t, i, c - start) && (window == 0 || Depth(t, i) - Depth(t, c - start) < window)
    else false
  }

  function TreeSeen(window: nat, buf: seq<KV>, start: nat, t: Topology, i: nat): multiset<KV>
    requires i < Size(t) && start + Size(t) <= |buf|
  {
    Masked(buf, Columns(TreeRow(window, |buf|, start, t, i)))
  }

  function TreeAttended(l: Layer, buf: seq<KV>, xs: seq<Row>, start: nat, t: Topology)
    : (ys: seq<Row>)
    requires |xs| == Size(t) && start + |xs| <= |buf|
    ensures |ys| == |xs|
    ensures forall i :: 0 <= i < |xs| ==>
                          ys[i] == l.attend(xs[i], start + Depth(t, i), TreeSeen(l.window, buf, start, t, i))
  {
    seq(|xs|, i requires 0 <= i < |xs| =>
      l.attend(xs[i], start + Depth(t, i), TreeSeen(l.window, buf, start, t, i)))
  }

  /** The first prefix column that a node `d` deep past a prefix of `n` sees. */
  function PrefixFrom(window: nat, n: nat, d: nat): (lo: nat)
    ensures lo <= n
  {
    if window == 0 then 0 else Min(Max(0, n + d + 1 - window), n)
  }

  /** The depth from which it sees its own chain. */
  function ChainFrom(window: nat, d: nat): (k: nat)
    ensures k <= d + 1
  {
    if window == 0 then 0 else Min(Max(0, d + 1 - window), d + 1)
  }

  /** The mask row in its three parts. */
  lemma {:induction false} RowParts(w: nat, n: nat, start: nat, t: Topology, i: nat)
    requires i < Size(t) && start + Size(t) <= n
    ensures var row := TreeRow(w, n, start, t, i);
            var r0, r1, r2 := row[..start], row[start..start + Size(t)], row[start + Size(t)..];
            && row == r0 + r1 + r2
            && (forall j :: 0 <= j < start ==> (r0[j] <==> PrefixFrom(w, start, Depth(t, i)) <= j))
            && (forall j :: 0 <= j < Size(t) ==>
                              (r1[j] <==> IsAncestor(t, i, j) && (w == 0 || Depth(t, i) - Depth(t, j) < w)))
            && (forall j :: 0 <= j < |r2| ==> !r2[j])
  {
    hide Ancestor;
    var row := TreeRow(w, n, start, t, i);
    forall j | 0 <= j < Size(t)
      ensures row[start..start + Size(t)][j] <==> IsAncestor(t, i, j) && (w == 0 || Depth(t, i) - Depth(t, j) < w)
    {
      assert row[start + j] <==> Lets(w, start, t, i, start + j);
    }
  }

  /** A node's window: the end of the prefix and the lower part of its chain. */
  function Window(w: nat, pre: seq<KV>, keys: seq<KV>, t: Topology, i: nat): multiset<KV>
    requires |keys| == Size(t) && i < Size(t)
  {
    multiset(pre[PrefixFrom(w, |pre|, Depth(t, i))..]) +
    multiset(Picked(keys, Chain(t, i)[ChainFrom(w, Depth(t, i))..]))
  }

  lemma {:induction false} TreeSeenParts(w: nat, buf: seq<KV>, start: nat, t: Topology, i: nat)
    requires i < Size(t) && start + Size(t) <= |buf|
    ensures TreeSeen(w, buf, start, t, i) == Window(w, buf[..start], buf[start..start + Size(t)], t, i)
  {
    hide Forest, Size, Depth, Ancestor, Masked, TreeRow, Lets, Chain, Picked, PrefixFrom, ChainFrom;
    var row := TreeRow(w, |buf|, start, t, i);
    RowParts(w, |buf|, start, t, i);
    var lo := PrefixFrom(w, start, Depth(t, i));
    var pre, keys, tail := buf[..start], buf[start..start + Size(t)], buf[start + Size(t)..];
    var r0, r1, r2 := row[..start], row[start..start + Size(t)], row[start + Size(t)..];
    assert buf == pre + keys + tail;
    MaskedSplit(pre + keys, tail, r0 + r1, r2);
    MaskedSplit(pre, keys, r0, r1);
    MaskedRange(tail, Columns(r2), 0, 0);
    MaskedRange(pre, Columns(r0), lo, start);
    assert pre[lo..start] == pre[lo..] && tail[0..0] == [];
    ChainKeys(keys, r1, w, t, i);
  }

  /** A text made of a prefix and a chain, seen through the window of its last position. */
  lemma {:induction false} VisibleParts(w: nat, pre: seq<KV>, path: seq<KV>)
    requires path != []
    ensures var d := |path| - 1;
            Visible(w, pre + path, |pre| + d)
            == multiset(pre[PrefixFrom(w, |pre|, d)..]) + multiset(path[ChainFrom(w, d)..])
  {
    var all, d := pre + path, |path| - 1;
    var lo := if w == 0 then 0 else Min(Max(0, |all| - w), |all|);
    assert all[lo..|all|] == pre[PrefixFrom(w, |pre|, d)..] + path[ChainFrom(w, d)..];
  }

  lemma {:induction false} VisibleText(l: Layer, buf: seq<KV>, pre: seq<Row>, xs: seq<Row>, t: Topology, i: nat)
    requires |xs| == Size(t) && i < Size(t) && |pre| + |xs| <= |buf|
    requires buf[..|pre|] == Projected(l, pre, 0)
    requires buf[|pre|..|pre| + |xs|] == TreeKeys(l, xs, |pre|, t)
    ensures Visible(l.window, Projected(l, Text(pre, xs, t, i), 0), |pre| + Depth(t, i))
         == Window(l.window, buf[..|pre|], buf[|pre|..|pre| + |xs|], t, i)
  {
    hide Forest, Size, Depth, Visible, Window, Projected, Picked, TreeKeys, Chain;
    var keys := buf[|pre|..|pre| + |xs|];
    ProjectedPath(l, pre, xs, t, Chain(t, i));
    VisibleChain(l.window, buf[..|pre|], keys, t, i);
  }

  lemma {:induction false} VisibleChain(w: nat, pre: seq<KV>, keys: seq<KV>, t: Topology, i: nat)
    requires |keys| == Size(t) && i < Size(t)
    ensures Visible(w, pre + Picked(keys, Chain(t, i)), |pre| + Depth(t, i)) == Window(w, pre, keys, t, i)
  {
    hide Forest, Size, Depth, Visible, PrefixFrom, ChainFrom, Picked, Chain;
    VisibleParts(w, pre, Picked(keys, Chain(t, i)));
    PickedDrop(keys, Chain(t, i), ChainFrom(w, Depth(t, i)));
  }

  /** Node i sees exactly what the last position of its own text sees. */
  lemma {:induction false} TreeSeenExact(l: Layer, buf: seq<KV>, pre: seq<Row>, xs: seq<Row>, t: Topology, i: nat)
    requires |xs| == Size(t) && i < Size(t) && |pre| + |xs| <= |buf|
    requires buf[..|pre|] == Projected(l, pre, 0)
    requires buf[|pre|..|pre| + |xs|] == TreeKeys(l, xs, |pre|, t)
    ensures TreeSeen(l.window, buf, |pre|, t, i)
         == Visible(l.window, Projected(l, Text(pre, xs, t, i), 0), |pre| + Depth(t, i))
  {
    hide Forest, Size, Depth, Visible, TreeSeen, Projected, TreeKeys, Text, Window;
    TreeSeenParts(l.window, buf, |pre|, t, i);
    VisibleText(l, buf, pre, xs, t, i);
  }

  lemma {:induction false} PickedDrop<T>(xs: seq<T>, idx: seq<nat>, k: nat)
    requires k <= |idx| && forall j :: 0 <= j < |idx| ==> idx[j] < |xs|
    ensures Picked(xs, idx)[k..] == Picked(xs, idx[k..]) && Picked(xs, idx)[..k] == Picked(xs, idx[..k])
  {
  }

  /** Nodes at depths 0, 1, 2, ... project as consecutive positions do. */
  lemma {:induction false} ProjectedPath(l: Layer, pre: seq<Row>, xs: seq<Row>, t: Topology, c: seq<nat>)
    requires |xs| == Size(t)
    requires forall k :: 0 <= k < |c| ==> c[k] < |xs| && Depth(t, c[k]) == k
    ensures Projected(l, pre + Picked(xs, c), 0) == Projected(l, pre, 0) + Picked(TreeKeys(l, xs, |pre|, t), c)
  {
  }

  /** The tree columns a node may read are the lower part of its chain. */
  lemma {:induction false} ChainKeys(keys: seq<KV>, row: seq<bool>, w: nat, t: Topology, i: nat)
    requires |keys| == |row| == Size(t) && i < Size(t)
    requires forall j :: 0 <= j < Size(t) ==>
               (row[j] <==> IsAncestor(t, i, j) && (w == 0 || Depth(t, i) - Depth(t, j) < w))
    ensures Masked(keys, Columns(row)) == multiset(Picked(keys, Chain(t, i)[ChainFrom(w, Depth(t, i))..]))
  {
    hide Forest, Size, Depth, Ancestor, Masked;
    var c := Chain(t, i);
    var k0 := ChainFrom(w, Depth(t, i));
    var idx := c[k0..];
    forall j | 0 <= j < |row|
      ensures row[j] <==> j in idx
    {
      AncestorInChain(t, i, j);
      if j in c {
        var k :| 0 <= k < |c| && c[k] == j;
        assert Depth(t, j) == k;
        assert k >= k0 ==> idx[k - k0] == j;
      }
    }
    forall a, b | 0 <= a < b < |idx|
      ensures idx[a] != idx[b]
    {
      assert Depth(t, idx[a]) == k0 + a && Depth(t, idx[b]) == k0 + b;
    }
    MaskedPicked(keys, row, idx);
  }

  /** A layer's buffer after the tree's keys are written over the scratch slots. */
  function TreeBuf(l: Layer, kv: seq<KV>, xs: seq<Row>, start: nat, t: Topology): (b: seq<KV>)
    requires |xs| == Size(t) && start + |xs| <= |kv|
    ensures |b| == |kv| && b[..start] == kv[..start] && b[start..start + |xs|] == TreeKeys(l, xs, start, t)
  {
    Update(Overwrite, kv, start, TreeKeys(l, xs, start, t))
  }

  /** Every node's output row is the last row of recomputing its own text. */
  lemma {:induction false} NodeExact(l: Layer, kv: seq<KV>, pre: seq<Row>, xs: seq<Row>, t: Topology, i: nat)
    requires |xs| == Size(t) && i < Size(t) && |pre| + |xs| <= |kv|
    requires kv[..|pre|] == Projected(l, pre, 0)
    ensures TreeAttended(l, TreeBuf(l, kv, xs, |pre|, t), xs, |pre|, t)[i]
         == LayerRows(l, Text(pre, xs, t, i))[|pre| + Depth(t, i)]
  {
    hide Forest, Size, Depth, Chain, Picked, TreeSeen, Visible, Projected, TreeKeys, TreeBuf, LayerRows, TreeAttended;
    TreeSeenExact(l, TreeBuf(l, kv, xs, |pre|, t), pre, xs, t, i);
    assert Text(pre, xs, t, i)[|pre| + Depth(t, i)] == xs[i];
  }

  /** A text is its parent's text and one more row. */
  lemma {:induction false} TextStep(pre: seq<Row>, xs: seq<Row>, t: Topology, i: nat)
    requires |xs| == Size(t) && i < Size(t)
    ensures Text(pre, xs, t, i) == Before(pre, xs, t, i) + [xs[i]]
  {
    hide Size, Depth, Forest;
  }

  /** The text that leads up to a node. */
  function Before(pre: seq<Row>, xs: seq<Row>, t: Topology, i: nat): (text: seq<Row>)
    requires |xs| == Size(t) && i < Size(t)
    ensures |text| == |pre| + Depth(t, i)
  {
    var p := Above(t, i);
    if p == -1 then pre else Text(pre, xs, t, p)
  }

  lemma {:induction false} LayerAppend(l: Layer, xs: seq<Row>, x: Row)
    ensures LayerRows(l, xs + [x]) == LayerRows(l, xs) + [LayerRows(l, xs + [x])[|xs|]]
  {
    hide LayerRows;
    LayerCausal(l, xs + [x], |xs|);
    assert (xs + [x])[..|xs|] == xs;
  }

  /** So along any chain the outputs extend the prefix's outputs as recomputation would. */
  lemma {:induction false} ChainExact(l: Layer, kv: seq<KV>, pre: seq<Row>, xs: seq<Row>, t: Topology, i: nat)
    requires |xs| == Size(t) && i < Size(t) && |pre| + |xs| <= |kv|
    requires kv[..|pre|] == Projected(l, pre, 0)
    ensures var ys := TreeAttended(l, TreeBuf(l, kv, xs, |pre|, t), xs, |pre|, t);
            LayerRows(l, Text(pre, xs, t, i)) == Text(LayerRows(l, pre), ys, t, i)
    decreases Depth(t, i)
  {
    hide Forest, Size, Depth, Text, TreeAttended, TreeBuf, LayerRows, Projected;
    var ys := TreeAttended(l, TreeBuf(l, kv, xs, |pre|, t), xs, |pre|, t);
    NodeExact(l, kv, pre, xs, t, i);
    TextStep(pre, xs, t, i);
    TextStep(LayerRows(l, pre), ys, t, i);
    LayerAppend(l, Before(pre, xs, t, i), xs[i]);
    var p := Above(t, i);
    if p != -1 {
      ChainExact(l, kv, pre, xs, t, p);
    }
  }
}
