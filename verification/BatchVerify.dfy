/** Verifying chunks of several streams at once, each at its own position, in one buffer per layer. */
module BatchVerify {
  import opened Decode
  import opened TargetModel
  import opened KvCache
  import opened Masks
  import FastVerify

  datatype Verified = Rows(rows: seq<seq<Row>>) | ContextOverflow

  /** A block run twice on the same chunk leaves what one run leaves: warm-up runs before a graph is
      captured do no harm. */
  lemma {:induction false} RunTwice(ls: seq<Layer>, caches: Caches, xs: seq<Row>, start: nat)
    requires |caches| == |ls|
    ensures var r := BlockStep(Overwrite, ls, caches, xs, start); BlockStep(Overwrite, ls, r.0, xs, start) == r
    decreases ls
  {
    if ls != [] {
      var new_ := Projected(ls[0], xs, start);
      var kv := Update(Overwrite, caches[0], start, new_);
      assert Update(Overwrite, kv, start, new_) == kv;
      var rest := BlockStep(Overwrite, ls[1..], caches[1..], Attended(ls[0], kv, xs, start), start);
      RunTwice(ls[1..], caches[1..], Attended(ls[0], kv, xs, start), start);
      assert ([kv] + rest.0)[1..] == rest.0;
    }
  }

  /** The streams' rows of hidden states, all of the same chunk size. */
  predicate Shaped<T>(xs: seq<seq<T>>, B: nat, n: nat) {
    |xs| == B && forall b :: 0 <= b < B ==> |xs[b]| == n
  }

  predicate Fits(starts: seq<nat>, n: nat, end: nat) {
    forall b :: 0 <= b < |starts| ==> starts[b] + n <= end
  }

  method Foremost(starts: seq<nat>) returns (m: nat)
    requires starts != []
    ensures m in starts && forall b :: 0 <= b < |starts| ==> starts[b] <= m
  {
    m := starts[0];
    for b := 1 to |starts|
      invariant m in starts && forall c :: 0 <= c < b ==> starts[c] <= m
    {
      if starts[b] > m { m := starts[b]; }
    }
  }

  class BatchedFastVerify {
    const ls: seq<Layer>
    const B: nat
    const maxlen: nat
    const bufs: seq<array2<KV>>

    ghost predicate Valid()
      reads bufs
    {
      && |bufs| == |ls| && B >= 1
      && (forall i :: 0 <= i < |bufs| ==> bufs[i].Length0 == B && bufs[i].Length1 == maxlen)
      && forall i, j :: 0 <= i < j < |bufs| ==> bufs[i] != bufs[j]
    }

    constructor (ls: seq<Layer>, B: nat, maxlen: nat, zero: Row)
      requires B >= 1
      ensures Valid() && fresh(bufs) && this.ls == ls && this.B == B && this.maxlen == maxlen
    {
      var all: seq<array2<KV>> := [];
      for i := 0 to |ls|
        invariant |all| == i && fresh(all)
        invariant forall k :: 0 <= k < i ==> all[k].Length0 == B && all[k].Length1 == maxlen
        invariant forall j, k :: 0 <= j < k < i ==> all[j] != all[k]
      {
        var a := new KV[B, maxlen]((_, _) => KV(zero, zero));
        all := all + [a];
      }
      this.ls, this.B, this.maxlen, bufs := ls, B, maxlen, all;
    }

    /** One stream's caches, as if it were alone. */
    ghost function Stream(b: nat): (c: Caches)
      reads bufs
      requires Valid() && b < B
      ensures |c| == |ls| && forall i :: 0 <= i < |ls| ==> c[i] == RowOf(bufs[i], b)
    {
      seq(|ls|, (i: nat) requires Valid() && b < B && i < |ls| reads bufs => RowOf(bufs[i], b))
    }

    ghost function Streams(): (s: seq<Caches>)
      reads bufs
      requires Valid()
      ensures |s| == B && forall b :: 0 <= b < B ==> s[b] == Stream(b)
    {
      seq(B, (b: nat) requires Valid() && b < B reads bufs => Stream(b))
    }

    /** Write every stream's keys at its own positions. */
    method Scatter(i: nat, starts: seq<nat>, keys: seq<seq<KV>>, n: nat)
      requires Valid() && i < |ls| && |starts| == B && Shaped(keys, B, n) && Fits(starts, n, maxlen)
      modifies bufs[i]
      ensures forall b :: 0 <= b < B ==>
                            RowOf(bufs[i], b) == Update(Overwrite, old(RowOf(bufs[i], b)), starts[b], keys[b])
    {
      var a := bufs[i];
      for b := 0 to B
        invariant forall c, j :: b <= c < B && 0 <= j < maxlen ==> a[c, j] == old(a[c, j])
        invariant forall c :: 0 <= c < b ==> RowOf(a, c) == Update(Overwrite, old(RowOf(a, c)), starts[c], keys[c])
      {
        label Before: ghost var was := RowOf(a, b);
        assert was == old(RowOf(a, b));
        for j := 0 to n
          invariant forall k :: 0 <= k < j ==> a[b, starts[b] + k] == keys[b][k]
          invariant forall k :: 0 <= k < maxlen && !(starts[b] <= k < starts[b] + j) ==> a[b, k] == was[k]
          invariant forall c, k :: 0 <= c < B && c != b && 0 <= k < maxlen ==> a[c, k] == old@Before(a[c, k])
        {
          a[b, starts[b] + j] := keys[b][j];
        }
        forall c | 0 <= c < b ensures RowOf(a, c) == old@Before(RowOf(a, c)) {}
        assert RowOf(a, b) == was[..starts[b]] + keys[b] + was[starts[b] + n..];
      }
    }

    /** One layer for all streams: write, then each stream reads the shared bucket under its own mask. */
    method LayerStep(i: nat, starts: seq<nat>, x: seq<seq<Row>>, n: nat, alen: nat) returns (y: seq<seq<Row>>)
      requires Valid() && i < |ls| && |starts| == B && Shaped(x, B, n) && Fits(starts, n, alen) && alen <= maxlen
      modifies bufs[i]
      ensures Shaped(y, B, n)
      ensures forall b :: 0 <= b < B ==>
                            RowOf(bufs[i], b)
                             == Update(Overwrite, old(RowOf(bufs[i], b)), starts[b],
                                       Projected(ls[i], x[b], starts[b])) &&
                            y[b] == Attended(ls[i], RowOf(bufs[i], b), x[b], starts[b])
    {
      hide Update, Visible, Masked, RowOf;
      var l := ls[i];
      var keys := seq(B, b requires 0 <= b < B => Projected(l, x[b], starts[b]));
      Scatter(i, starts, keys, n);
      y := [];
      for b := 0 to B
        invariant forall c :: 0 <= c < B ==>
                                RowOf(bufs[i], c) == Update(Overwrite, old(RowOf(bufs[i], c)), starts[c], keys[c])
        invariant |y| == b && forall c :: 0 <= c < b ==>
                                            |y[c]| == n && y[c] == Attended(l, RowOf(bufs[i], c), x[c], starts[c])
      {
        var out := ReadStream(i, b, starts[b], x[b], alen);
        y := y + [out];
      }
    }

    method ReadStream(i: nat, b: nat, start: nat, x: seq<Row>, alen: nat) returns (out: seq<Row>)
      requires Valid() && i < |ls| && b < B && start + |x| <= alen <= maxlen
      ensures |out| == |x| && out == Attended(ls[i], RowOf(bufs[i], b), x, start)
    {
      hide Visible, Masked, RowOf;
      var l, row := ls[i], RowOf(bufs[i], b);
      out := [];
      for q := 0 to |x|
        invariant |out| == q && forall k :: 0 <= k < q ==> out[k] == Attended(l, row, x, start)[k]
      {
        BucketExact(l.window, row, alen, start + q);
        out := out + [l.attend(x[q], start + q, BucketRead(l.window, row, alen, start + q))];
      }
      assert out == Attended(l, row, x, start);
    }

    /** Each stream's block on its own chunk, from layer i on, is still to come. */
    ghost predicate Ahead(i: nat, was: seq<Caches>, x0: seq<seq<Row>>, y: seq<seq<Row>>, starts: seq<nat>)
      reads bufs
      requires Valid() && i <= |ls| && |was| == |x0| == |y| == |starts| == B
    {
      forall b :: 0 <= b < B ==> StreamAhead(ls, i, was[b], Stream(b), x0[b], y[b], starts[b])
    }

    method Layers(starts: seq<nat>, x: seq<seq<Row>>, n: nat, alen: nat) returns (y: seq<seq<Row>>)
      requires Valid() && |starts| == B && Shaped(x, B, n) && Fits(starts, n, alen) && alen <= maxlen
      modifies bufs
      ensures Shaped(y, B, n)
      ensures forall b :: 0 <= b < B ==> (Stream(b), y[b]) == BlockStep(Overwrite, ls, old(Stream(b)), x[b], starts[b])
    {
      hide Update, Attended, Projected, StreamAhead, RowOf;
      y := x;
      ghost var was := Streams();
      forall b | 0 <= b < B ensures StreamAhead(ls, 0, was[b], Stream(b), x[b], y[b], starts[b]) {
        AheadStart(ls, was[b], x[b], starts[b]);
      }
      for i := 0 to |ls|
        invariant Shaped(y, B, n) && Ahead(i, was, x, y, starts)
      {
        ghost var mid, before := Streams(), y;
        y := LayerStep(i, starts, y, n, alen);
        forall b | 0 <= b < B ensures StreamAhead(ls, i + 1, was[b], Stream(b), x[b], y[b], starts[b]) {
          forall k | 0 <= k < |ls| && k != i ensures RowOf(bufs[k], b) == mid[b][k] {
            assert bufs[k] != bufs[i];
          }
          assert Stream(b) == mid[b][i := RowOf(bufs[i], b)];
          AheadStep(ls, i, was[b], mid[b], x[b], before[b], starts[b]);
        }
      }
      forall b | 0 <= b < B ensures (Stream(b), y[b]) == BlockStep(Overwrite, ls, was[b], x[b], starts[b]) {
        AheadEnd(ls, was[b], Stream(b), x[b], y[b], starts[b]);
      }
    }

    /** One round for all streams. It is refused, with nothing written, when the furthest stream has no
        room; otherwise every stream gets exactly what it would get alone. */
    method Decode(h: seq<seq<Row>>, starts: seq<nat>, n: nat) returns (res: Verified)
      requires Valid() && |starts| == B && Shaped(h, B, n)
      modifies bufs
      ensures res.ContextOverflow? <==> !Fits(starts, n, maxlen)
      ensures res.ContextOverflow? ==> forall b :: 0 <= b < B ==> Stream(b) == old(Stream(b))
      ensures res.Rows? ==> Shaped(res.rows, B, n) &&
                            forall b :: 0 <= b < B ==>
                              (Stream(b), res.rows[b]) == BlockStep(Overwrite, ls, old(Stream(b)), h[b], starts[b])
    {
      var need := Foremost(starts);
      if need + n > maxlen {
        return ContextOverflow;
      }
      var alen := Bucket(need + n, maxlen);
      var y := Layers(starts, h, n, alen);
      res := Rows(y);
    }

    /** Seat a stream that was prefilled alone; the other streams keep their rows. */
    method LoadPrefix(b: nat, src: FastVerify.FastVerify)
      requires Valid() && b < B && src.Valid() && src.ls == ls && src.maxlen == maxlen
      modifies bufs
      ensures Stream(b) == old(src.Contents())
      ensures forall c :: 0 <= c < B && c != b ==> Stream(c) == old(Stream(c))
    {
      ghost var want := src.Contents();
      for i := 0 to |ls|
        invariant forall k :: 0 <= k < i ==> RowOf(bufs[k], b) == want[k]
        invariant forall k, c, j :: 0 <= k < |ls| && 0 <= c < B && c != b && 0 <= j < maxlen ==>
                                      bufs[k][c, j] == old(bufs[k][c, j])
      {
        CopyRow(b, i, src);
      }
      forall c | 0 <= c < B && c != b ensures Stream(c) == old(Stream(c)) {
        assert forall k :: 0 <= k < |ls| ==> RowOf(bufs[k], c) == old(RowOf(bufs[k], c));
      }
    }

    method CopyRow(b: nat, i: nat, src: FastVerify.FastVerify)
      requires Valid() && b < B && i < |ls| && src.Valid() && src.ls == ls && src.maxlen == maxlen
      modifies bufs[i]
      ensures RowOf(bufs[i], b) == src.bufs[i][..]
      ensures forall c, j :: 0 <= c < B && c != b && 0 <= j < maxlen ==> bufs[i][c, j] == old(bufs[i][c, j])
    {
      var a, from := bufs[i], src.bufs[i];
      for j := 0 to maxlen
        invariant forall k :: 0 <= k < j ==> a[b, k] == from[k]
        invariant forall c, k :: 0 <= c < B && c != b && 0 <= k < maxlen ==> a[c, k] == old(a[c, k])
      {
        a[b, j] := from[j];
      }
    }
  }

  /** A stream's row of one layer's buffer. */
  function RowOf(a: array2<KV>, b: nat): (r: seq<KV>)
    reads a
    requires b < a.Length0
    ensures |r| == a.Length1
    ensures forall j :: 0 <= j < a.Length1 ==> r[j] == a[b, j]
  {
    seq(a.Length1, (j: nat) requires b < a.Length0 && j < a.Length1 reads a => a[b, j])
  }

  /** After i layers: those caches are written, and what remains of the block takes y to its end. */
  ghost predicate StreamAhead(ls: seq<Layer>, i: nat, was: Caches, now: Caches, x: seq<Row>, y: seq<Row>, start: nat) {
    i <= |ls| && |was| == |now| == |ls| && now[i..] == was[i..] &&
    var rest := BlockStep(Overwrite, ls[i..], was[i..], y, start);
    BlockStep(Overwrite, ls, was, x, start) == (now[..i] + rest.0, rest.1)
  }

  lemma {:induction false} AheadStart(ls: seq<Layer>, was: Caches, x: seq<Row>, start: nat)
    requires |was| == |ls|
    ensures StreamAhead(ls, 0, was, was, x, x, start)
  {
    var whole := BlockStep(Overwrite, ls, was, x, start);
    assert ls[0..] == ls && was[0..] == was && was[..0] + whole.0 == whole.0;
  }

  lemma {:induction false} AheadStep(ls: seq<Layer>, i: nat, was: Caches, now: Caches, x: seq<Row>, y: seq<Row>,
                                     start: nat)
    requires i < |ls| && StreamAhead(ls, i, was, now, x, y, start)
    ensures var kv := Update(Overwrite, now[i], start, Projected(ls[i], y, start));
            StreamAhead(ls, i + 1, was, now[i := kv], x, Attended(ls[i], kv, y, start), start)
  {
    hide Update, Attended, Projected;
    assert now[i] == now[i..][0] == was[i];
    var kv := Update(Overwrite, now[i], start, Projected(ls[i], y, start));
    BlockUnroll(Overwrite, ls, was, i, y, start);
    var after, rest := now[i := kv], BlockStep(Overwrite, ls[i + 1..], was[i + 1..], Attended(ls[i], kv, y, start),
                                               start);
    assert after[i + 1..] == now[i..][1..] == was[i..][1..] == was[i + 1..];
    assert after[..i + 1] == now[..i] + [kv];
    assert now[..i] + ([kv] + rest.0) == after[..i + 1] + rest.0;
  }

  lemma {:induction false} AheadEnd(ls: seq<Layer>, was: Caches, now: Caches, x: seq<Row>, y: seq<Row>, start: nat)
    requires StreamAhead(ls, |ls|, was, now, x, y, start)
    ensures (now, y) == BlockStep(Overwrite, ls, was, x, start)
  {
    assert now[..|ls|] + [] == now;
  }
}
