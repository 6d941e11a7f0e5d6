/** The coordinator's bookkeeping for chunks that overlap by one position, free of any transport. */
module Pipeline {
  import opened Decode

  /** The last token of the speculative stream followed by drafts of it, which are arbitrary. */
  datatype Chunk = Chunk(start: nat, drafts: seq<Token>)

  /** `stream` is the committed text followed by the drafts sent on top of it; the first
      `discard` chunks in flight are stale. */
  datatype Pipe = Pipe(out: seq<Token>, stream: seq<Token>, inflight: seq<Chunk>, discard: nat)

  function Started(ids: seq<Token>, cur: Token): Pipe {
    Pipe([cur], ids + [cur], [], 0)
  }

  function Sent(p: Pipe, ds: seq<Token>): Pipe
    requires p.stream != []
  {
    p.(stream := p.stream + ds, inflight := p.inflight + [Chunk(|p.stream| - 1, ds)])
  }

  /** The number of leading drafts the verdicts agree with. */
  function Agreed(ds: seq<Token>, r: seq<Token>): (n: nat)
    requires |ds| <= |r|
    ensures n <= |ds| && forall i :: 0 <= i < n ==> ds[i] == r[i]
    ensures n < |ds| ==> ds[n] != r[n]
  {
    if ds == [] || ds[0] != r[0] then 0 else 1 + Agreed(ds[1..], r[1..])
  }

  method CountAgreed(ds: seq<Token>, r: seq<Token>) returns (n: nat)
    requires |ds| <= |r|
    ensures n == Agreed(ds, r)
  {
    n := 0;
    for j := 0 to |ds|
      invariant n == j && forall i :: 0 <= i < j ==> ds[i] == r[i]
    {
      if ds[j] != r[j] { break; }
      n := n + 1;
    }
  }

  predicate Full(ds: seq<Token>, r: seq<Token>)
    requires |ds| <= |r|
  {
    ds != [] && Agreed(ds, r) == |ds|
  }

  /** What a fresh chunk commits: all its drafts, or the agreed ones and the target's own token. */
  function Commits(ds: seq<Token>, r: seq<Token>): (ys: seq<Token>)
    requires |ds| < |r|
    ensures ys != [] && |ys| <= (if ds == [] then 1 else |ds|)
    ensures forall j :: 0 <= j < |ys| ==> ys[j] == r[j]
    ensures |ys| - 1 <= |ds| && forall j :: 0 <= j < |ys| - 1 ==> ys[j] == ds[j]
  {
    var n := Agreed(ds, r);
    if Full(ds, r) then ds else ds[..n] + [r[n]]
  }

  function Read(ids: seq<Token>, p: Pipe, r: seq<Token>): Pipe
    requires p.inflight != [] && (p.discard == 0 ==> |p.inflight[0].drafts| < |r|)
  {
    var ds, rest := p.inflight[0].drafts, p.inflight[1..];
    if p.discard > 0 then p.(inflight := rest, discard := p.discard - 1)
    else if Full(ds, r) then p.(out := p.out + ds, inflight := rest)
    else
      var out := p.out + Commits(ds, r);
      Pipe(out, ids + out, rest, |rest|)
  }

  // ----- the invariant -----

  /** The chunks tile the stream from `at` to its last token. */
  predicate Chained(chunks: seq<Chunk>, at: nat, stream: seq<Token>) {
    if chunks == [] then at + 1 == |stream|
    else
      var c := chunks[0];
      c.start == at && at + |c.drafts| < |stream| &&
      stream[at + 1..at + 1 + |c.drafts|] == c.drafts &&
      Chained(chunks[1..], at + |c.drafts|, stream)
  }

  /** The reply owed to each fresh chunk is the target's verdict on the stream it was cut from. */
  predicate Truthful(next: Target, stream: seq<Token>, chunks: seq<Chunk>, replies: seq<seq<Token>>)
    requires |chunks| == |replies|
  {
    forall k :: 0 <= k < |chunks| ==> Answers(next, stream, chunks[k], replies[k])
  }

  predicate Answers(next: Target, stream: seq<Token>, c: Chunk, r: seq<Token>) {
    c.start + |c.drafts| < |stream| && |r| == |c.drafts| + 1 &&
    forall j :: 0 <= j < |r| ==> r[j] == next(stream[..c.start + j + 1])
  }

  /** A text every cache will hold once the ring has run dry. */
  function Held(p: Pipe): seq<Token>
    requires p.stream != []
  {
    if p.discard < |p.inflight| then p.stream else p.stream[..|p.stream| - 1]
  }

  /** `replies` are those the ring will still deliver. */
  predicate Inv(next: Target, ids: seq<Token>, p: Pipe, replies: seq<seq<Token>>) {
    && ids != [] && p.out != []
    && p.out == Greedy(next, ids, |p.out|)
    && |replies| == |p.inflight| && p.discard <= |p.inflight|
    && ids + p.out <= p.stream
    && Chained(p.inflight[p.discard..], |ids + p.out| - 1, p.stream)
    && Truthful(next, p.stream, p.inflight[p.discard..], replies[p.discard..])
  }

  lemma {:induction false} StartedInv(next: Target, ids: seq<Token>)
    requires ids != []
    ensures var p := Started(ids, next(ids)); Inv(next, ids, p, []) && Held(p) == ids
  {
    var p := Started(ids, next(ids));
    assert Greedy(next, ids, 1) == [] + [next(ids + [])];
    assert ids + [] == ids;
    assert p.stream[..|ids|] == ids;
    assert p.inflight[0..] == [];
    assert |ids + p.out| == |p.stream|;
  }

  lemma {:induction false} ChainedAppend(chunks: seq<Chunk>, at: nat, stream: seq<Token>, ds: seq<Token>)
    requires Chained(chunks, at, stream)
    ensures Chained(chunks + [Chunk(|stream| - 1, ds)], at, stream + ds)
    decreases |chunks|
  {
    var all, last := stream + ds, Chunk(|stream| - 1, ds);
    if chunks == [] {
      assert (chunks + [last])[1..] == [];
    } else {
      var c := chunks[0];
      ChainedAppend(chunks[1..], at + |c.drafts|, stream, ds);
      assert (chunks + [last])[1..] == chunks[1..] + [last];
      assert all[at + 1..at + 1 + |c.drafts|] == c.drafts;
    }
  }

  lemma {:induction false} ChainedBounds(chunks: seq<Chunk>, at: nat, stream: seq<Token>)
    requires Chained(chunks, at, stream)
    ensures at < |stream|
    decreases |chunks|
  {
    if chunks != [] {
      ChainedBounds(chunks[1..], at + |chunks[0].drafts|, stream);
    }
  }

  /** Sending a chunk: its reply is the verdict on the stream it extends. */
  lemma {:induction false} SentInv(next: Target, ids: seq<Token>, p: Pipe, replies: seq<seq<Token>>,
                                   ds: seq<Token>)
    requires Inv(next, ids, p, replies)
    ensures var p' := Sent(p, ds);
            Inv(next, ids, p', replies + [Verdicts(next, p'.stream, |p.stream| - 1)]) && Held(p') == p'.stream
  {
    var p', d := Sent(p, ds), p.discard;
    var r := Verdicts(next, p'.stream, |p.stream| - 1);
    ChainedAppend(p.inflight[d..], |ids + p.out| - 1, p.stream, ds);
    assert p'.inflight[d..] == p.inflight[d..] + [Chunk(|p.stream| - 1, ds)];
    assert (replies + [r])[d..] == replies[d..] + [r];
    TruthfulAppend(next, p.stream, p.inflight[d..], replies[d..], ds);
  }

  lemma {:induction false} TruthfulAppend(next: Target, stream: seq<Token>, chunks: seq<Chunk>,
                                          replies: seq<seq<Token>>, ds: seq<Token>)
    requires |chunks| == |replies| && Truthful(next, stream, chunks, replies) && stream != []
    ensures var (all, at) := (stream + ds, |stream| - 1);
            Truthful(next, all, chunks + [Chunk(at, ds)], replies + [Verdicts(next, all, at)])
  {
    var all := stream + ds;
    forall k | 0 <= k < |chunks| ensures Answers(next, all, chunks[k], replies[k]) {
      var c, r := chunks[k], replies[k];
      assert Answers(next, stream, c, r);
      forall j | 0 <= j < |r| ensures r[j] == next(all[..c.start + j + 1]) {
        assert all[..c.start + j + 1] == stream[..c.start + j + 1];
      }
    }
  }

  /** Every token a fresh reply commits is the target's answer to the text before it. */
  lemma {:induction false} CommitsAnswers(next: Target, base: seq<Token>, stream: seq<Token>, c: Chunk, r: seq<Token>)
    requires base <= stream && |base| == c.start + 1 && Answers(next, stream, c, r)
    requires stream[|base|..|base| + |c.drafts|] == c.drafts
    ensures var ys := Commits(c.drafts, r);
            forall j :: 0 <= j < |ys| ==> ys[j] == next(base + ys[..j])
    ensures var ys := Commits(c.drafts, r); base + ys[..|ys| - 1] <= stream
  {
    var ys := Commits(c.drafts, r);
    forall j | 0 <= j < |ys| ensures ys[j] == next(base + ys[..j]) {
      Overlaid(base, stream, c.drafts, ys, j);
      assert r[j] == next(stream[..c.start + j + 1]);
    }
    CommitsOverlay(base, stream, c, r);
  }

  lemma {:induction false} CommitsOverlay(base: seq<Token>, stream: seq<Token>, c: Chunk, r: seq<Token>)
    requires base <= stream && |base| + |c.drafts| <= |stream| && |c.drafts| < |r|
    requires stream[|base|..|base| + |c.drafts|] == c.drafts
    ensures var ys := Commits(c.drafts, r); base + ys[..|ys| - 1] <= stream
  {
    var ys := Commits(c.drafts, r);
    Overlaid(base, stream, c.drafts, ys, |ys| - 1);
  }

  lemma {:induction false} Overlaid(base: seq<Token>, stream: seq<Token>, ds: seq<Token>, ys: seq<Token>, j: nat)
    requires base <= stream && |base| + |ds| <= |stream| && stream[|base|..|base| + |ds|] == ds
    requires j <= |ds| && j <= |ys| && forall i :: 0 <= i < j ==> ys[i] == ds[i]
    ensures base + ys[..j] == stream[..|base| + j]
  {
    forall i | 0 <= i < j ensures stream[|base| + i] == ys[i] {
      assert stream[|base|..|base| + |ds|][i] == ds[i];
    }
  }

  /** Facts about the reply at the head of the line when it is fresh. */
  lemma {:induction false} FreshHead(next: Target, ids: seq<Token>, p: Pipe, replies: seq<seq<Token>>)
    requires Inv(next, ids, p, replies) && p.inflight != [] && p.discard == 0
    ensures |replies[0]| == |p.inflight[0].drafts| + 1
    ensures var ys := Commits(p.inflight[0].drafts, replies[0]);
            p.out + ys == Greedy(next, ids, |p.out| + |ys|) && ids + p.out + ys[..|ys| - 1] <= p.stream
  {
    hide Chained, Truthful, Commits, Greedy;
    assert p.inflight[0..] == p.inflight && replies[0..] == replies;
    HeadAnswers(next, ids + p.out, p.stream, p.inflight, replies);
    GreedyExtends(next, ids, p.out, Commits(p.inflight[0].drafts, replies[0]));
  }

  lemma {:induction false} HeadAnswers(next: Target, base: seq<Token>, stream: seq<Token>,
                                       chunks: seq<Chunk>, replies: seq<seq<Token>>)
    requires base != [] && base <= stream
    requires chunks != [] && |chunks| == |replies|
    requires Chained(chunks, |base| - 1, stream) && Truthful(next, stream, chunks, replies)
    ensures |replies[0]| == |chunks[0].drafts| + 1
    ensures var ys := Commits(chunks[0].drafts, replies[0]);
            (forall j :: 0 <= j < |ys| ==> ys[j] == next(base + ys[..j])) && base + ys[..|ys| - 1] <= stream
  {
    assert Answers(next, stream, chunks[0], replies[0]);
    CommitsAnswers(next, base, stream, chunks[0], replies[0]);
  }

  /** The first chunk in flight, when fresh, carries the stream's tokens right after the
      committed text. */
  predicate Overlays(ids: seq<Token>, p: Pipe)
    requires p.inflight != []
  {
    p.inflight[0].start + 1 == |ids| + |p.out| && ids + p.out + p.inflight[0].drafts <= p.stream
  }

  lemma {:induction false} FreshOverlays(next: Target, ids: seq<Token>, p: Pipe, replies: seq<seq<Token>>)
    requires Inv(next, ids, p, replies) && p.inflight != [] && p.discard == 0
    ensures Overlays(ids, p) && |replies| > 0 && Answers(next, p.stream, p.inflight[0], replies[0])
  {
    hide Greedy;
    var ds := p.inflight[0].drafts;
    assert p.inflight[0..] == p.inflight && replies[0..] == replies;
    Overlaid(ids + p.out, p.stream, ds, ds, |ds|);
    assert ds[..|ds|] == ds;
  }

  lemma {:induction false} StaleReadInv(next: Target, ids: seq<Token>, p: Pipe, replies: seq<seq<Token>>)
    requires Inv(next, ids, p, replies) && p.inflight != [] && p.discard > 0
    ensures var p' := Read(ids, p, replies[0]); Inv(next, ids, p', replies[1..]) && Held(p') == Held(p)
  {
    var d := p.discard;
    assert p.inflight[1..][d - 1..] == p.inflight[d..];
    assert replies[1..][d - 1..] == replies[d..];
  }

  lemma {:induction false} DivergedReadInv(next: Target, ids: seq<Token>, p: Pipe, replies: seq<seq<Token>>)
    requires Inv(next, ids, p, replies) && p.inflight != [] && p.discard == 0
    requires |replies[0]| == |p.inflight[0].drafts| + 1 && !Full(p.inflight[0].drafts, replies[0])
    ensures var p' := Read(ids, p, replies[0]);
            Inv(next, ids, p', replies[1..]) && Held(p') <= Held(p)
  {
    FreshHead(next, ids, p, replies);
    var p', ys := Read(ids, p, replies[0]), Commits(p.inflight[0].drafts, replies[0]);
    assert p'.inflight[p'.discard..] == [] && replies[1..][p'.discard..] == [];
  }

  lemma {:induction false} FullReadInv(next: Target, ids: seq<Token>, p: Pipe, replies: seq<seq<Token>>)
    requires Inv(next, ids, p, replies) && p.inflight != [] && p.discard == 0
    requires |replies[0]| == |p.inflight[0].drafts| + 1 && Full(p.inflight[0].drafts, replies[0])
    ensures var p' := Read(ids, p, replies[0]);
            Inv(next, ids, p', replies[1..]) && Held(p') <= Held(p)
  {
    FreshHead(next, ids, p, replies);
    var c, rest, rs := p.inflight[0], p.inflight[1..], replies[1..];
    assert p.inflight[0..] == p.inflight && replies[0..] == replies && rest[0..] == rest && rs[0..] == rs;
    ChainedBounds(rest, c.start + |c.drafts|, p.stream);
    Overlaid(ids + p.out, p.stream, c.drafts, c.drafts, |c.drafts|);
    assert c.drafts[..|c.drafts|] == c.drafts;
    assert ids + (p.out + c.drafts) == ids + p.out + c.drafts;
    forall k | 0 <= k < |rest| ensures Answers(next, p.stream, rest[k], rs[k]) {
      assert Answers(next, p.stream, p.inflight[k + 1], replies[k + 1]);
    }
  }

  /** Reading a reply - stale, fully accepted or divergent - keeps the invariant. */
  lemma {:induction false} ReadInv(next: Target, ids: seq<Token>, p: Pipe, replies: seq<seq<Token>>)
    requires Inv(next, ids, p, replies) && p.inflight != []
    ensures p.discard == 0 ==> |replies[0]| == |p.inflight[0].drafts| + 1
    ensures var p' := Read(ids, p, replies[0]);
            Inv(next, ids, p', replies[1..]) && Held(p') <= Held(p) && p.out <= p'.out
  {
    if p.discard > 0 {
      StaleReadInv(next, ids, p, replies);
    } else {
      FreshHead(next, ids, p, replies);
      if Full(p.inflight[0].drafts, replies[0]) {
        FullReadInv(next, ids, p, replies);
      } else {
        DivergedReadInv(next, ids, p, replies);
      }
    }
  }
}
