/** The fixed-buffer verify: every layer owns a buffer of `maxlen` slots written in place, and
    reads it in a bucket, through a gathered window, or whole.

    Each method is proved equal to the block function of `KvCache` or the tree block of `TreeBlocks`
    on the buffers' contents. */
module FastVerify {
  import opened Decode
  import opened Indices
  import opened TargetModel
  import opened KvCache
  import opened Masks
  import opened Tree
  import opened TreeVerify
  import opened TreeBlocks

  datatype TreeVerified = TreeRows(rows: seq<Row>) | TreeOverflow | MalformedTree

  datatype Verified = Rows(rows: seq<Row>) | ContextOverflow

  /** How far a prefill chunk is padded to reach the fixed kernel shape. */
  function Padded(n: nat, start: nat, maxlen: nat): (pq: nat)
    requires start + n <= maxlen
    ensures n <= pq && start + pq <= maxlen
    ensures n >= 4096 ==> pq == n
    ensures n < 4096 ==> pq == 4096 || (pq < 4096 && start + pq == maxlen)
  {
    Max(n, Min(4096, maxlen - start))
  }

  function Zeros(zero: Row, n: nat): (z: seq<Row>)
    ensures |z| == n
  {
    seq(n, i => zero)
  }

  class FastVerify {
    const ls: seq<Layer>
    const maxlen: nat
    const zero: Row
    const useWindow: bool
    const bufs: seq<array<KV>>

    ghost predicate Valid()
      reads bufs
    {
      && |bufs| == |ls|
      && (forall i :: 0 <= i < |bufs| ==> bufs[i].Length == maxlen)
      && forall i, j :: 0 <= i < j < |bufs| ==> bufs[i] != bufs[j]
    }

    constructor (ls: seq<Layer>, maxlen: nat, zero: Row, useWindow: bool)
      ensures Valid() && fresh(bufs)
      ensures this.ls == ls && this.maxlen == maxlen && this.zero == zero && this.useWindow == useWindow
      ensures forall i :: 0 <= i < |bufs| ==> bufs[i][..] == Blank(zero, maxlen)
    {
      var all: seq<array<KV>> := [];
      for i := 0 to |ls|
        invariant |all| == i && fresh(all)
        invariant forall k :: 0 <= k < i ==> all[k][..] == Blank(zero, maxlen)
        invariant forall j, k :: 0 <= j < k < i ==> all[j] != all[k]
      {
        var a := new KV[maxlen](_ => KV(zero, zero));
        assert a[..] == Blank(zero, maxlen);
        all := all + [a];
      }
      this.ls, this.maxlen, this.zero, this.useWindow, bufs := ls, maxlen, zero, useWindow, all;
    }

    /** The buffers' contents. */
    ghost function Contents(): (c: Caches)
      reads bufs
      ensures |c| == |bufs| && forall i :: 0 <= i < |bufs| ==> c[i] == bufs[i][..]
    {
      seq(|bufs|, (i: nat) requires i < |bufs| reads bufs => bufs[i][..])
    }

    /** Forget everything: every slot of every layer is zero again. */
    method Reset()
      requires Valid()
      modifies bufs
      ensures Valid()
      ensures forall i :: 0 <= i < |bufs| ==> bufs[i][..] == Blank(zero, maxlen)
    {
      for i := 0 to |bufs|
        invariant forall k :: 0 <= k < i ==> bufs[k][..] == Blank(zero, maxlen)
      {
        var a := bufs[i];
        for j := 0 to maxlen
          invariant forall k :: 0 <= k < j ==> a[k] == KV(zero, zero)
          invariant forall k :: 0 <= k < i ==> bufs[k][..] == Blank(zero, maxlen)
        {
          a[j] := KV(zero, zero);
        }
        assert a[..] == Blank(zero, maxlen);
      }
    }

    /** Write a chunk's keys at its own positions. */
    method IndexCopy(i: nat, start: nat, keys: seq<KV>)
      requires Valid() && i < |ls| && start + |keys| <= maxlen
      modifies bufs[i]
      ensures bufs[i][..] == Update(Overwrite, old(bufs[i][..]), start, keys)
    {
      var a := bufs[i];
      for j := 0 to |keys|
        invariant forall k :: 0 <= k < j ==> a[start + k] == keys[k]
        invariant forall k :: 0 <= k < maxlen && !(start <= k < start + j) ==> a[k] == old(a[k])
      {
        a[start + j] := keys[j];
      }
      assert a[..] == old(a[..])[..start] + keys + old(a[..])[start + |keys|..];
    }

    /** One layer of a decode: write, then read through the window or the bucket. */
    method DecodeLayer(i: nat, start: nat, x: seq<Row>, alen: nat) returns (y: seq<Row>)
      requires Valid() && i < |ls| && start + |x| <= alen <= maxlen
      modifies bufs[i]
      ensures bufs[i][..] == Update(Overwrite, old(bufs[i][..]), start, Projected(ls[i], x, start))
      ensures y == Attended(ls[i], bufs[i][..], x, start)
    {
      hide Update, Visible, Masked;
      IndexCopy(i, start, Projected(ls[i], x, start));
      var l, buf, w, n := ls[i], bufs[i][..], ls[i].window, |x|;
      var gather := useWindow && w > 0 && start >= w - 1;
      y := [];
      for q := 0 to n
        invariant bufs[i][..] == buf
        invariant |y| == q && forall k :: 0 <= k < q ==> y[k] == Attended(l, buf, x, start)[k]
      {
        var seen;
        if gather {
          WindowExact(w, buf, start, n, q);
          seen := WindowRead(w, buf, start, n, q);
        } else {
          BucketExact(w, buf, alen, start + q);
          seen := BucketRead(w, buf, alen, start + q);
        }
        y := y + [l.attend(x[q], start + q, seen)];
      }
    }

    /** The block's layers in turn over one chunk. */
    method Layers(start: nat, x: seq<Row>, alen: nat) returns (y: seq<Row>)
      requires Valid() && start + |x| <= alen <= maxlen
      modifies bufs
      ensures Valid()
      ensures (Contents(), y) == BlockStep(Overwrite, ls, old(Contents()), x, start)
    {
      hide Update, Attended, Projected, BlockStep;
      y := x;
      ghost var was := Contents();
      ghost var whole := BlockStep(Overwrite, ls, was, x, start);
      assert ls[0..] == ls && was[0..] == was && [] + whole.0 == whole.0;
      ghost var done: Caches := [];
      for i := 0 to |ls|
        invariant Valid() && |y| == |x|
        invariant |done| == i && forall k :: 0 <= k < i ==> bufs[k][..] == done[k]
        invariant forall k :: i <= k < |ls| ==> bufs[k][..] == was[k]
        invariant whole.0 == done + BlockStep(Overwrite, ls[i..], was[i..], y, start).0
        invariant whole.1 == BlockStep(Overwrite, ls[i..], was[i..], y, start).1
      {
        BlockUnroll(Overwrite, ls, was, i, y, start);
        y := DecodeLayer(i, start, y, alen);
        Regrouped(done, bufs[i][..], BlockStep(Overwrite, ls[i + 1..], was[i + 1..], y, start).0);
        done := done + [bufs[i][..]];
      }
      BlockEnds(ls, was, y, start);
      assert done + [] == done;
      assert Contents() == done == whole.0;
    }

    /** A verify chunk at `start`; refused before any write if it would not fit. */
    method Decode(h: seq<Row>, start: nat) returns (res: Verified)
      requires Valid()
      modifies bufs
      ensures Valid()
      ensures res.ContextOverflow? <==> start + |h| > maxlen
      ensures res.ContextOverflow? ==> Contents() == old(Contents())
      ensures res.Rows? ==> (Contents(), res.rows) == BlockStep(Overwrite, ls, old(Contents()), h, start)
    {
      if start + |h| > maxlen {
        return ContextOverflow;
      }
      var alen := Bucket(start + |h|, maxlen);
      var y := Layers(start, h, alen);
      return Rows(y);
    }

    /** A prefill chunk, padded with zero rows to the fixed shape; only the real rows are returned. */
    method Prefill(h: seq<Row>, start: nat) returns (res: Verified)
      requires Valid()
      modifies bufs
      ensures Valid()
      ensures res.ContextOverflow? <==> start + |h| > maxlen
      ensures res.ContextOverflow? ==> Contents() == old(Contents())
      ensures res.Rows? ==>
                var r := BlockStep(Overwrite, ls, old(Contents()), h + Zeros(zero, Padded(|h|, start, maxlen) - |h|),
                                   start);
                Contents() == r.0 && res.rows == r.1[..|h|]
    {
      if start + |h| > maxlen {
        return ContextOverflow;
      }
      var hp := h + Zeros(zero, Padded(|h|, start, maxlen) - |h|);
      var y := Layers(start, hp, maxlen);
      return Rows(y[..|h|]);
    }

    /** Node i's mask over the buffer, from the ancestor matrix. */
    method TreeMask(w: nat, start: nat, t: Topology, anc: array2<bool>, i: nat) returns (row: seq<bool>)
      requires i < Size(t) && start + Size(t) <= maxlen && Matrix(t, anc)
      ensures row == TreeRow(w, maxlen, start, t, i)
    {
      hide Ancestor, Forest;
      row := [];
      var p := start + Depth(t, i);
      for c := 0 to maxlen
        invariant |row| == c && forall k :: 0 <= k < c ==> (row[k] <==> Lets(w, start, t, i, k))
      {
        var seen := false;
        if c < start {
          seen := w == 0 || p - c < w;
        } else if c < start + Size(t) {
          seen := anc[i, c - start] && (w == 0 || p - (start + Depth(t, c - start)) < w);
        }
        row := row + [seen];
      }
    }

    /** One layer of a tree verify: keys into contiguous scratch slots, then every node reads the
        whole buffer through its own row. */
    method TreeLayer(i: nat, start: nat, x: seq<Row>, t: Topology, anc: array2<bool>) returns (y: seq<Row>)
      requires Valid() && i < |ls| && |x| == Size(t) && start + |x| <= maxlen && Matrix(t, anc)
      modifies bufs[i]
      ensures bufs[i][..] == TreeBuf(ls[i], old(bufs[i][..]), x, start, t)
      ensures y == TreeAttended(ls[i], bufs[i][..], x, start, t)
    {
      hide Update, Masked, Matrix, Forest, TreeRow, Size, Depth;
      IndexCopy(i, start, TreeKeys(ls[i], x, start, t));
      var l, buf := ls[i], bufs[i][..];
      y := [];
      for q := 0 to |x|
        invariant bufs[i][..] == buf
        invariant |y| == q && forall k :: 0 <= k < q ==> y[k] == TreeAttended(l, buf, x, start, t)[k]
      {
        var row := TreeMask(l.window, start, t, anc, q);
        y := y + [l.attend(x[q], start + Depth(t, q), Masked(buf, Columns(row)))];
      }
    }

    method TreeLayers(h: seq<Row>, start: nat, t: Topology, anc: array2<bool>) returns (y: seq<Row>)
      requires Valid() && |h| == Size(t) && start + |h| <= maxlen && Matrix(t, anc)
      modifies bufs
      ensures Valid() && Room(Overwrite, old(Contents()), start + |h|)
      ensures (Contents(), y) == TreeBlock(ls, old(Contents()), h, start, t)
    {
      hide Forest, TreeBuf, TreeAttended, Matrix, Size, Room, TreeBlock;
      y := h;
      ghost var was := Contents();
      WholeRoom(was, start + |h|);
      ghost var whole := TreeBlock(ls, was, h, start, t);
      assert ls[0..] == ls && was[0..] == was && [] + whole.0 == whole.0;
      ghost var done: Caches := [];
      for i := 0 to |ls|
        invariant Valid() && |y| == |h| && Room(Overwrite, was[i..], start + |h|) && Matrix(t, anc)
        invariant |done| == i && forall k :: 0 <= k < i ==> bufs[k][..] == done[k]
        invariant forall k :: i <= k < |ls| ==> bufs[k][..] == was[k]
        invariant whole.0 == done + TreeBlock(ls[i..], was[i..], y, start, t).0
        invariant whole.1 == TreeBlock(ls[i..], was[i..], y, start, t).1
      {
        TreeBlockUnroll(ls, was, i, y, start, t);
        y := TreeLayer(i, start, y, t, anc);
        Regrouped(done, bufs[i][..], TreeBlock(ls[i + 1..], was[i + 1..], y, start, t).0);
        done := done + [bufs[i][..]];
      }
      TreeBlockEnds(ls, was, y, start, t);
      assert done + [] == done;
      assert Contents() == done == whole.0;
    }

    /** Verify a whole tree in one pass; a malformed tree or one that does not fit is refused
        before any write. */
    method TreeDecode(h: seq<Row>, start: nat, par: seq<int>, dep: seq<int>) returns (res: TreeVerified)
      requires Valid()
      modifies bufs
      ensures Valid()
      ensures res.MalformedTree? <==> !Forest(|h|, par, dep)
      ensures res.TreeOverflow? <==> Forest(|h|, par, dep) && start + |h| > maxlen
      ensures !res.TreeRows? ==> Contents() == old(Contents())
      ensures res.TreeRows? ==> Room(Overwrite, old(Contents()), start + |h|)
      ensures res.TreeRows? ==>
                (Contents(), res.rows) == TreeBlock(ls, old(Contents()), h, start, Shape(par, dep))
    {
      hide Forest, Ancestor, TreeBlock;
      var ok := ValidateTree(|h|, par, dep);
      if !ok { return MalformedTree; }
      if start + |h| > maxlen { return TreeOverflow; }
      ForestSize(|h|, par, dep);
      var t: Topology := Shape(par, dep);
      var anc := new bool[|h|, |h|]((i, j) => false);
      AncestorsByWalk(|h|, par, dep, anc);
      var y := TreeLayers(h, start, t, anc);
      return TreeRows(y);
    }

    method GatherLayer(i: nat, start: nat, keep: seq<nat>)
      requires Valid() && i < |bufs| && Gatherable(maxlen, start, keep)
      modifies bufs[i]
      ensures bufs[i][..] == Compact(old(bufs[i][..]), start, keep)
    {
      hide Compact;
      var a := bufs[i];
      var picked := Picked(a[..][start..], keep);
      CompactIs(a[..], start, keep);
      IndexCopy(i, start, picked);
    }

    /** Copy the accepted path's keys from their scratch slots onto the end of the prefix. */
    method TreeGather(start: nat, keep: seq<nat>)
      requires Valid() && Gatherable(maxlen, start, keep)
      modifies bufs
      ensures Valid()
      ensures Contents() == CompactAll(old(Contents()), start, keep)
    {
      hide Compact, Gatherable;
      for i := 0 to |bufs|
        invariant forall k :: 0 <= k < i ==> bufs[k][..] == Compact(old(bufs[k][..]), start, keep)
        invariant forall k :: i <= k < |bufs| ==> bufs[k][..] == old(bufs[k][..])
      {
        GatherLayer(i, start, keep);
      }
      assert Contents() == CompactAll(old(Contents()), start, keep);
    }
  }

  /** The ancestor matrix of a tree. */
  ghost predicate Matrix(t: Topology, anc: array2<bool>)
    reads anc
  {
    anc.Length0 == anc.Length1 == Size(t) &&
    forall i, j :: 0 <= i < Size(t) && 0 <= j < Size(t) ==> (anc[i, j] <==> Ancestor(t.par, t.dep, i, j))
  }

  function Blank(zero: Row, n: nat): (c: seq<KV>)
    ensures |c| == n && forall i :: 0 <= i < n ==> c[i] == KV(zero, zero)
  {
    seq(n, i => KV(zero, zero))
  }

  lemma {:induction false} ForestSize(n: nat, par: seq<int>, dep: seq<int>)
    requires Forest(n, par, dep)
    ensures Forest(|par|, par, dep) && |par| == |dep| == n
  {
  }

  lemma {:induction false} CompactIs(kv: seq<KV>, start: nat, keep: seq<nat>)
    requires Gatherable(|kv|, start, keep)
    ensures Compact(kv, start, keep) == Update(Overwrite, kv, start, Picked(kv[start..], keep))
  {
  }

  lemma {:induction false} WholeRoom(caches: Caches, end: nat)
    requires forall i :: 0 <= i < |caches| ==> end <= |caches[i]|
    ensures Room(Overwrite, caches, end)
  {
  }

  lemma {:induction false} TreeBlockEnds(ls: seq<Layer>, caches: Caches, xs: seq<Row>, start: nat, t: Topology)
    requires |caches| == |ls| && |xs| == Size(t) && Room(Overwrite, caches[|ls|..], start + |xs|)
    ensures TreeBlock(ls[|ls|..], caches[|ls|..], xs, start, t) == ([], xs)
  {
  }

  lemma {:induction false} Regrouped<T>(done: seq<T>, one: T, rest: seq<T>)
    ensures done + ([one] + rest) == (done + [one]) + rest
  {
  }

  lemma {:induction false} BlockEnds(ls: seq<Layer>, caches: Caches, y: seq<Row>, start: nat)
    requires |caches| == |ls|
    ensures BlockStep(Overwrite, ls[|ls|..], caches[|ls|..], y, start) == ([], y)
  {
  }
}
