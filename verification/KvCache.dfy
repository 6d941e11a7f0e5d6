/** Per-layer caches under two disciplines: crop to the chunk and append, or write in place and mask. */
module KvCache {
  import opened Decode
  import opened TargetModel

  datatype Policy = CropAppend | Overwrite

  type Caches = seq<seq<KV>>

  function Crop(kv: seq<KV>, start: nat): seq<KV> {
    if |kv| > start then kv[..start] else kv
  }

  /** The cache after a chunk's keys have been written. A write that would leave a fixed
      buffer changes nothing (the nodes refuse such a chunk before writing). */
  function Update(pol: Policy, kv: seq<KV>, start: nat, new_: seq<KV>): seq<KV> {
    match pol
    case CropAppend => Crop(kv, start) + new_
    case Overwrite =>
      if start + |new_| <= |kv| then kv[..start] + new_ + kv[start + |new_|..] else kv
  }

  function Attended(l: Layer, kv: seq<KV>, xs: seq<Row>, start: nat): (ys: seq<Row>)
    ensures |ys| == |xs|
    ensures forall i :: 0 <= i < |xs| ==> ys[i] == l.attend(xs[i], start + i, Visible(l.window, kv, start + i))
  {
    seq(|xs|, i requires 0 <= i < |xs| => l.attend(xs[i], start + i, Visible(l.window, kv, start + i)))
  }

  /** One node's block on a chunk of rows starting at `start`: the new caches and the output. */
  function BlockStep(pol: Policy, ls: seq<Layer>, caches: Caches, xs: seq<Row>, start: nat)
    : (r: (Caches, seq<Row>))
    requires |caches| == |ls|
    ensures |r.0| == |ls| && |r.1| == |xs|
  {
    if ls == [] then ([], xs)
    else
      var kv := Update(pol, caches[0], start, Projected(ls[0], xs, start));
      var rest := BlockStep(pol, ls[1..], caches[1..], Attended(ls[0], kv, xs, start), start);
      ([kv] + rest.0, rest.1)
  }

  /** The first |xs| entries of every layer's cache are what recomputing `xs` would produce. */
  predicate Holds(ls: seq<Layer>, caches: Caches, xs: seq<Row>)
    requires |caches| == |ls|
  {
    ls == [] ||
    (|xs| <= |caches[0]| &&
     caches[0][..|xs|] == Projected(ls[0], xs, 0) &&
     Holds(ls[1..], caches[1..], LayerRows(ls[0], xs)))
  }

  /** A fixed buffer must have room for the chunk; a growing cache always has. */
  predicate Room(pol: Policy, caches: Caches, end: nat) {
    pol == Overwrite ==> forall i :: 0 <= i < |caches| ==> end <= |caches[i]|
  }

  lemma {:induction false} HoldsPrefix(ls: seq<Layer>, caches: Caches, xs: seq<Row>, k: nat)
    requires |caches| == |ls| && Holds(ls, caches, xs) && k <= |xs|
    ensures Holds(ls, caches, xs[..k])
    decreases ls
  {
    if ls != [] {
      LayerCausal(ls[0], xs, k);
      HoldsPrefix(ls[1..], caches[1..], LayerRows(ls[0], xs), k);
      assert caches[0][..k] == caches[0][..|xs|][..k];
      assert Projected(ls[0], xs[..k], 0) == Projected(ls[0], xs, 0)[..k];
    }
  }

  lemma {:induction false} UpdateExact(pol: Policy, kv: seq<KV>, start: nat, xs: seq<KV>)
    requires start <= |kv| && (pol == Overwrite ==> start + |xs| <= |kv|)
    ensures var kv' := Update(pol, kv, start, xs);
            start + |xs| <= |kv'| && kv'[..start + |xs|] == kv[..start] + xs
  {
  }

  lemma {:induction false} AttendedExact(l: Layer, kv: seq<KV>, pre: seq<Row>, xs: seq<Row>)
    requires |pre + xs| <= |kv| && kv[..|pre + xs|] == Projected(l, pre + xs, 0)
    ensures Attended(l, kv, xs, |pre|) == LayerRows(l, pre + xs)[|pre|..]
  {
    hide Visible, LayerRows, Attended, Projected;
    var start, all := |pre|, pre + xs;
    var full := Projected(l, all, 0);
    forall i {:trigger xs[i]} | 0 <= i < |xs|
      ensures Attended(l, kv, xs, start)[i] == LayerRows(l, all)[start + i]
    {
      assert kv[..start + i + 1] == full[..start + i + 1];
      VisiblePrefix(l.window, kv, full, start + i);
      assert all[start + i] == xs[i];
    }
  }

  lemma {:induction false} LayerExact(pol: Policy, l: Layer, kv: seq<KV>, pre: seq<Row>, xs: seq<Row>)
    requires |pre| <= |kv| && kv[..|pre|] == Projected(l, pre, 0)
    requires pol == Overwrite ==> |pre| + |xs| <= |kv|
    ensures var kv' := Update(pol, kv, |pre|, Projected(l, xs, |pre|));
            |pre + xs| <= |kv'| && kv'[..|pre + xs|] == Projected(l, pre + xs, 0) &&
            LayerRows(l, pre) + Attended(l, kv', xs, |pre|) == LayerRows(l, pre + xs)
  {
    hide Visible, LayerRows, Attended, Projected, Update;
    var start, all := |pre|, pre + xs;
    UpdateExact(pol, kv, start, Projected(l, xs, start));
    var kv' := Update(pol, kv, start, Projected(l, xs, start));
    assert kv'[..|all|] == Projected(l, all, 0);
    AttendedExact(l, kv', pre, xs);
    LayerCausal(l, all, start);
    assert all[..start] == pre;
  }

  /** Caching is exact: a chunk run on top of a cache that holds `pre` produces exactly the rows
      recomputation produces, and leaves a cache that holds `pre + xs` - whatever stale entries
      lay beyond `pre`. */
  lemma {:induction false} BlockExact(pol: Policy, ls: seq<Layer>, caches: Caches, pre: seq<Row>, xs: seq<Row>)
    requires |caches| == |ls| && Holds(ls, caches, pre) && Room(pol, caches, |pre| + |xs|)
    ensures var (caches', ys) := BlockStep(pol, ls, caches, xs, |pre|);
            Holds(ls, caches', pre + xs) && ys == BlockRows(ls, pre + xs)[|pre|..]
    decreases ls
  {
    if ls == [] {
      assert (pre + xs)[|pre|..] == xs;
    } else {
      var l := ls[0];
      LayerExact(pol, l, caches[0], pre, xs);
      var kv := Update(pol, caches[0], |pre|, Projected(l, xs, |pre|));
      BlockExact(pol, ls[1..], caches[1..], LayerRows(l, pre), Attended(l, kv, xs, |pre|));
    }
  }

  /** Chunks never change the size of a fixed buffer. */
  lemma {:induction false} BlockKeepsRoom(ls: seq<Layer>, caches: Caches, xs: seq<Row>, start: nat)
    requires |caches| == |ls|
    ensures var r := BlockStep(Overwrite, ls, caches, xs, start);
            forall i :: 0 <= i < |ls| ==> |r.0[i]| == |caches[i]|
    decreases ls
  {
    if ls != [] {
      var kv := Update(Overwrite, caches[0], start, Projected(ls[0], xs, start));
      BlockKeepsRoom(ls[1..], caches[1..], Attended(ls[0], kv, xs, start), start);
    }
  }

  /** Rows appended only to fill a fixed chunk shape change neither the real rows' outputs nor
      what the cache holds of them. */
  lemma {:induction false} PaddingInvisible(ls: seq<Layer>, caches: Caches, pre: seq<Row>, xs: seq<Row>, pad: seq<Row>)
    requires |caches| == |ls| && Holds(ls, caches, pre)
    requires Room(Overwrite, caches, |pre| + |xs| + |pad|)
    ensures var (caches', ys) := BlockStep(Overwrite, ls, caches, xs + pad, |pre|);
            Holds(ls, caches', pre + xs) && ys[..|xs|] == BlockRows(ls, pre + xs)[|pre|..]
  {
    BlockExact(Overwrite, ls, caches, pre, xs + pad);
    var r := BlockStep(Overwrite, ls, caches, xs + pad, |pre|);
    PaddingDropped(ls, r.0, r.1, pre, xs, pad);
  }

  lemma {:induction false} PaddingDropped(ls: seq<Layer>, caches: Caches, ys: seq<Row>, pre: seq<Row>, xs: seq<Row>,
                                          pad: seq<Row>)
    requires |caches| == |ls| && |ys| == |xs| + |pad| && Holds(ls, caches, pre + (xs + pad))
    requires ys == BlockRows(ls, pre + (xs + pad))[|pre|..]
    ensures Holds(ls, caches, pre + xs) && ys[..|xs|] == BlockRows(ls, pre + xs)[|pre|..]
  {
    var all, n := pre + (xs + pad), |pre + xs|;
    assert all[..n] == pre + xs;
    HoldsPrefix(ls, caches, all, n);
    BlockCausal(ls, all, n);
  }

  /** Two cached runs on one prefix agree, whichever rollback discipline each uses. */
  lemma {:induction false} DisciplinesAgree(p: Policy, q: Policy, ls: seq<Layer>, a: Caches, b: Caches, pre: seq<Row>,
                                            xs: seq<Row>)
    requires |a| == |b| == |ls| && Holds(ls, a, pre) && Holds(ls, b, pre)
    requires Room(p, a, |pre| + |xs|) && Room(q, b, |pre| + |xs|)
    ensures BlockStep(p, ls, a, xs, |pre|).1 == BlockStep(q, ls, b, xs, |pre|).1
  {
    BlockExact(p, ls, a, pre, xs);
    BlockExact(q, ls, b, pre, xs);
  }

  /** One unrolling of a block, at layer `i`. */
  lemma {:induction false} BlockUnroll(pol: Policy, ls: seq<Layer>, caches: Caches, i: nat, xs: seq<Row>, start: nat)
    requires |caches| == |ls| && i < |ls|
    ensures var kv := Update(pol, caches[i], start, Projected(ls[i], xs, start));
            var rest := BlockStep(pol, ls[i + 1..], caches[i + 1..], Attended(ls[i], kv, xs, start), start);
            BlockStep(pol, ls[i..], caches[i..], xs, start) == ([kv] + rest.0, rest.1)
  {
    assert ls[i..][1..] == ls[i + 1..] && caches[i..][1..] == caches[i + 1..];
  }

  /** A ring node with growing caches: one cache per layer, cropped to each chunk's start. */
  class Stage {
    const ls: seq<Layer>
    var kc: Caches

    predicate Valid()
      reads this
    {
      |kc| == |ls|
    }

    constructor (ls: seq<Layer>)
      ensures Valid() && this.ls == ls && kc == Emptied(ls)
    {
      this.ls := ls;
      kc := Emptied(ls);
    }

    /** One layer: crop, append, attend. */
    method Attn(i: nat, start: nat, x: seq<Row>) returns (y: seq<Row>)
      requires Valid() && i < |ls|
      modifies this
      ensures Valid()
      ensures kc == old(kc)[i := Update(CropAppend, old(kc)[i], start, Projected(ls[i], x, start))]
      ensures y == Attended(ls[i], kc[i], x, start)
    {
      var knew := Projected(ls[i], x, start);
      if |kc[i]| > start {
        kc := kc[i := kc[i][..start]];
      }
      kc := kc[i := kc[i] + knew];
      y := Attended(ls[i], kc[i], x, start);
    }

    method RunBlock(start: nat, x: seq<Row>) returns (y: seq<Row>)
      requires Valid()
      modifies this
      ensures Valid()
      ensures (kc, y) == BlockStep(CropAppend, ls, old(kc), x, start)
    {
      hide Update, Attended, Projected;
      y := x;
      ghost var was := kc;
      ghost var whole := BlockStep(CropAppend, ls, was, x, start);
      assert ls[0..] == ls && was[0..] == was;
      assert kc[..0] + whole.0 == whole.0;
      for i := 0 to |ls|
        invariant Valid() && kc[i..] == was[i..]
        invariant whole == (kc[..i] + BlockStep(CropAppend, ls[i..], was[i..], y, start).0,
                            BlockStep(CropAppend, ls[i..], was[i..], y, start).1)
      {
        BlockUnroll(CropAppend, ls, was, i, y, start);
        ghost var done := kc[..i];
        assert kc[i] == kc[i..][0] == was[i];
        y := Attn(i, start, y);
        assert kc[..i + 1] == done + [kc[i]];
        ghost var rest := BlockStep(CropAppend, ls[i + 1..], was[i + 1..], y, start);
        assert done + ([kc[i]] + rest.0) == kc[..i + 1] + rest.0;
      }
      assert kc[..|ls|] + [] == kc;
    }

    /** One message of the serving loop: a chunk at position 0 starts a new prompt. */
    method Handle(sp: nat, h: seq<Row>) returns (y: seq<Row>)
      requires Valid()
      modifies this
      ensures Valid()
      ensures (kc, y) == HandleStep(ls, old(kc), sp, h)
    {
      if sp == 0 {
        kc := Emptied(ls);
      }
      y := RunBlock(sp, h);
    }
  }

  function Emptied(ls: seq<Layer>): (c: Caches)
    ensures |c| == |ls| && forall i :: 0 <= i < |ls| ==> c[i] == []
  {
    seq(|ls|, i => [])
  }

  function HandleStep(ls: seq<Layer>, caches: Caches, sp: nat, h: seq<Row>): (r: (Caches, seq<Row>))
    requires |caches| == |ls|
    ensures |r.0| == |ls| && |r.1| == |h|
  {
    BlockStep(CropAppend, ls, if sp == 0 then Emptied(ls) else caches, h, sp)
  }

  lemma {:induction false} HoldsNothing(ls: seq<Layer>, caches: Caches)
    requires |caches| == |ls|
    ensures Holds(ls, caches, [])
    decreases ls
  {
    if ls != [] {
      assert LayerRows(ls[0], []) == [];
      HoldsNothing(ls[1..], caches[1..]);
    }
  }
}
