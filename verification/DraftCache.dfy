/** The draft model's own cache under two rollback strategies: write at the rewound position and mask
    what lies beyond, or crop. Both leave exactly the tokens before the next position visible. */
module DraftCache {
  import opened Decode
  import opened TargetModel
  import opened KvCache
  import FastVerify

  // ----- what the draft sees and says -----

  /** The target's vocabulary is larger: a token the draft does not know is fed as 0. */
  function Fed(vocab: nat, t: Token): (f: Token)
    ensures t < vocab ==> f == t
    ensures t >= vocab ==> f == 0
  {
    if t < vocab then t else 0
  }

  /** What the draft sees of a text: the first n tokens, its prompt, clamped to the last token it knows,
      the others as fed. */
  function Seen(vocab: nat, n: nat, s: seq<Token>): (v: seq<Token>)
    ensures |v| == |s|
    ensures forall i :: 0 <= i < |s| && s[i] < vocab ==> v[i] == s[i]
    ensures forall i :: 0 <= i < |s| && s[i] >= vocab ==> v[i] == if i < n then vocab - 1 else 0
  {
    seq(|s|, i requires 0 <= i < |s| => if i < n then Min(s[i], vocab - 1) else Fed(vocab, s[i]))
  }

  /** K tokens, each the draft's next token after everything fed so far. */
  function Drafted(next: Target, vocab: nat, text: seq<Token>, t: Token, K: nat): (ds: seq<Token>)
    ensures |ds| == K
    decreases K
  {
    if K == 0 then []
    else
      var more := text + [Fed(vocab, t)];
      [next(more)] + Drafted(next, vocab, more, next(more), K - 1)
  }

  lemma {:induction false} SeenPrefix(vocab: nat, n: nat, s: seq<Token>, k: nat)
    requires k <= |s|
    ensures Seen(vocab, n, s)[..k] == Seen(vocab, n, s[..k])
  {
  }

  /** What the draft has been fed once `ds` are drafted on top of a stream: all but the last token. */
  function Behind(vocab: nat, n: nat, stream: seq<Token>, ds: seq<Token>): (text: seq<Token>)
    requires stream != []
    ensures |text| == |stream| - 1 + |ds|
  {
    Seen(vocab, n, (stream + ds)[..|stream| - 1 + |ds|])
  }

  /** `ds` is how a K-token draft on top of a stream begins. */
  predicate Drafting(next: Target, vocab: nat, n: nat, stream: seq<Token>, ds: seq<Token>, K: nat)
    requires stream != []
  {
    |ds| <= K &&
    Drafted(next, vocab, Behind(vocab, n, stream, []), stream[|stream| - 1], K) ==
    ds + Drafted(next, vocab, Behind(vocab, n, stream, ds), (stream + ds)[|stream| - 1 + |ds|], K - |ds|)
  }

  lemma {:induction false} DraftingStep(next: Target, vocab: nat, n: nat, stream: seq<Token>, ds: seq<Token>, K: nat)
    requires n < |stream| && |ds| < K && Drafting(next, vocab, n, stream, ds, K)
    ensures var t := (stream + ds)[|stream| - 1 + |ds|];
            var fed := Behind(vocab, n, stream, ds) + [Fed(vocab, t)];
            fed == Behind(vocab, n, stream, ds + [next(fed)]) && Drafting(next, vocab, n, stream, ds + [next(fed)], K)
  {
    hide Fed, Seen;
    var p := |stream| - 1 + |ds|;
    var t := (stream + ds)[p];
    var fed := Behind(vocab, n, stream, ds) + [Fed(vocab, t)];
    var d := next(fed);
    BehindStep(vocab, n, stream, ds, d);
    var rest := Drafted(next, vocab, fed, d, K - |ds| - 1);
    assert ds + ([d] + rest) == (ds + [d]) + rest;
    assert (stream + (ds + [d]))[p + 1] == d;
    assert Drafting(next, vocab, n, stream, ds + [d], K);
  }

  lemma {:induction false} BehindStep(vocab: nat, n: nat, stream: seq<Token>, ds: seq<Token>, d: Token)
    requires n < |stream|
    ensures Behind(vocab, n, stream, ds + [d]) ==
            Behind(vocab, n, stream, ds) + [Fed(vocab, (stream + ds)[|stream| - 1 + |ds|])]
  {
    var p := |stream| - 1 + |ds|;
    assert (stream + (ds + [d]))[..p + 1] == (stream + ds)[..p] + [(stream + ds)[p]];
  }

  lemma {:induction false} DraftingStart(next: Target, vocab: nat, n: nat, stream: seq<Token>, K: nat)
    requires stream != []
    ensures Drafting(next, vocab, n, stream, [], K) &&
            Behind(vocab, n, stream, []) == Seen(vocab, n, stream[..|stream| - 1])
  {
    assert stream + [] == stream;
  }

  lemma {:induction false} DraftingDone(next: Target, vocab: nat, n: nat, stream: seq<Token>, ds: seq<Token>, K: nat)
    requires stream != [] && |ds| == K && Drafting(next, vocab, n, stream, ds, K)
    ensures ds == Drafted(next, vocab, Behind(vocab, n, stream, []), stream[|stream| - 1], K)
  {
  }

  /** A model whose layers all sit on one node. */
  predicate Whole(m: Model) {
    |m.stages| == 1 && m.stages[0] != []
  }

  lemma {:induction false} ChunkExact(m: Model, pol: Policy, caches: Caches, text: seq<Token>, toks: seq<Token>)
    requires Whole(m) && |caches| == |m.stages[0]| && toks != []
    requires Holds(m.stages[0], caches, Embed(m, text)) && Room(pol, caches, |text| + |toks|)
    ensures var r := BlockStep(pol, m.stages[0], caches, Embed(m, toks), |text|);
            Holds(m.stages[0], r.0, Embed(m, text + toks)) && m.head(r.1[|toks| - 1]) == Next(m)(text + toks)
  {
    hide Holds, BlockStep, BlockRows, Room;
    var ls := m.stages[0];
    assert Embed(m, text + toks) == Embed(m, text) + Embed(m, toks);
    BlockExact(pol, ls, caches, Embed(m, text), Embed(m, toks));
    assert m.stages[1..] == [];
    assert StackRows(m.stages, Embed(m, text + toks)) == BlockRows(ls, Embed(m, text + toks));
  }

  /** Every layer's cache has the same length. */
  predicate Even(caches: Caches, n: nat) {
    forall i :: 0 <= i < |caches| ==> |caches[i]| == n
  }

  lemma {:induction false} GrowsEvenly(ls: seq<Layer>, caches: Caches, xs: seq<Row>, start: nat)
    requires |caches| == |ls| && Even(caches, start)
    ensures Even(BlockStep(CropAppend, ls, caches, xs, start).0, start + |xs|)
    decreases ls
  {
    if ls != [] {
      var kv := Update(CropAppend, caches[0], start, Projected(ls[0], xs, start));
      var ys := Attended(ls[0], kv, xs, start);
      assert Even(caches[1..], start);
      GrowsEvenly(ls[1..], caches[1..], ys, start);
      assert |kv| == start + |xs|;
      assert BlockStep(CropAppend, ls, caches, xs, start).0
              == [kv] + BlockStep(CropAppend, ls[1..], caches[1..], ys, start).0;
    }
  }

  // ----- write in place -----

  /** The draft over one fixed buffer per layer; every step names the position it writes. */
  class StaticDraft {
    const m: Model
    const vocab: nat
    const cache: FastVerify.FastVerify

    ghost predicate Valid()
      reads cache, cache.bufs
    {
      Whole(m) && cache.Valid() && cache.ls == m.stages[0]
    }

    /** The text a step at position |text| attends. */
    ghost predicate Shows(text: seq<Token>)
      reads cache, cache.bufs
      requires Valid()
    {
      Holds(m.stages[0], cache.Contents(), Embed(m, text))
    }

    constructor (m: Model, vocab: nat, maxlen: nat, zero: Row)
      requires Whole(m)
      ensures Valid() && fresh(cache) && fresh(cache.bufs) && this.m == m && this.vocab == vocab &&
              cache.maxlen == maxlen
    {
      this.m, this.vocab := m, vocab;
      cache := new FastVerify.FastVerify(m.stages[0], maxlen, zero, false);
    }

    /** Write the prompt from slot 0 on, over whatever an earlier prompt left there. */
    method Prefill(ids: seq<Token>)
      requires Valid() && ids != [] && |ids| <= cache.maxlen
      modifies cache.bufs
      ensures Valid() && Shows(Seen(vocab, |ids|, ids))
    {
      hide Holds;
      var toks := Seen(vocab, |ids|, ids);
      HoldsNothing(m.stages[0], cache.Contents());
      assert Embed(m, []) == [];
      ChunkExact(m, Overwrite, cache.Contents(), [], toks);
      assert [] + toks == toks;
      var _ := cache.Layers(0, Embed(m, toks), cache.maxlen);
    }

    /** One step at a position: everything from there on is out of sight. */
    method DStep(t: Token, position: nat, ghost text: seq<Token>) returns (d: Token)
      requires Valid() && Shows(text) && |text| == position < cache.maxlen
      modifies cache.bufs
      ensures Valid() && Shows(text + [Fed(vocab, t)]) && d == Next(m)(text + [Fed(vocab, t)])
      ensures Shows(text + [if t < vocab then t else 0]) && d == Next(m)(text + [if t < vocab then t else 0])
    {
      hide Holds;
      var toks := [Fed(vocab, t)];
      ChunkExact(m, Overwrite, cache.Contents(), text, toks);
      var y := cache.Layers(position, Embed(m, toks), cache.maxlen);
      d := m.head(y[0]);
    }

    /** Rewinding takes no work: a shorter text is shown as well. */
    ghost method Rewound(text: seq<Token>, n: nat)
      requires Valid() && Shows(text) && n <= |text|
      ensures Valid() && Shows(text[..n])
    {
      hide Holds;
      HoldsPrefix(m.stages[0], cache.Contents(), Embed(m, text), n);
      assert Embed(m, text)[..n] == Embed(m, text[..n]);
    }

    /** Steps taken only to warm the compiled graph up leave the prompt as it was. */
    method WarmUp(cur: Token, L: nat, ghost text: seq<Token>)
      requires Valid() && Shows(text) && |text| == L && L + 8 <= cache.maxlen
      modifies cache.bufs
      ensures Valid() && Shows(text)
    {
      ghost var all := text;
      for w := 0 to 8
        invariant Valid() && Shows(all) && |all| == L + w && text <= all
      {
        var _ := DStep(cur, L + w, all);
        all := all + [Fed(vocab, cur)];
      }
      Rewound(all, L);
      assert all[..L] == text;
    }

    method DraftK(tail: Token, sendPos: nat, K: nat, ghost n: nat, ghost stream: seq<Token>) returns (ds: seq<Token>)
      requires Valid() && |stream| == sendPos + 1 && n <= sendPos && stream[sendPos] == tail &&
               sendPos + K <= cache.maxlen
      requires Shows(Seen(vocab, n, stream[..sendPos]))
      modifies cache.bufs
      ensures Valid() && ds == Drafted(Next(m), vocab, Seen(vocab, n, stream[..sendPos]), tail, K)
      ensures Shows(Seen(vocab, n, (stream + ds)[..sendPos + K]))
    {
      hide Drafting, Drafted, Next, Seen, Fed;
      var t, p := tail, sendPos;
      ds := [];
      DraftingStart(Next(m), vocab, n, stream, K);
      while |ds| < K
        invariant Valid() && |ds| <= K && p == sendPos + |ds| && t == (stream + ds)[p]
        invariant Shows(Behind(vocab, n, stream, ds)) && Drafting(Next(m), vocab, n, stream, ds, K)
      {
        DraftingStep(Next(m), vocab, n, stream, ds, K);
        t := DStep(t, p, Behind(vocab, n, stream, ds));
        ds, p := ds + [t], p + 1;
      }
      DraftingDone(Next(m), vocab, n, stream, ds, K);
    }
  }

  // ----- append and crop -----

  /** The draft over growing caches: a step appends, a rewind crops. */
  class CropDraft {
    const m: Model
    const vocab: nat
    const cache: Stage

    ghost predicate Valid()
      reads cache
    {
      Whole(m) && cache.Valid() && cache.ls == m.stages[0]
    }

    /** The cache holds this text and nothing else. */
    ghost predicate Shows(text: seq<Token>)
      reads cache
      requires Valid()
    {
      Holds(m.stages[0], cache.kc, Embed(m, text)) && Even(cache.kc, |text|)
    }

    constructor (m: Model, vocab: nat)
      requires Whole(m)
      ensures Valid() && fresh(cache) && this.m == m && this.vocab == vocab && Shows([])
    {
      this.m, this.vocab := m, vocab;
      cache := new Stage(m.stages[0]);
      new;
      HoldsNothing(m.stages[0], cache.kc);
      assert Embed(m, []) == [];
    }

    /** A new, empty cache. */
    method Renew()
      requires Valid()
      modifies cache
      ensures Valid() && Shows([])
    {
      cache.kc := Emptied(cache.ls);
      HoldsNothing(m.stages[0], cache.kc);
      assert Embed(m, []) == [];
    }

    /** Append a chunk. */
    method Append(toks: seq<Token>, ghost text: seq<Token>) returns (d: Token)
      requires Valid() && Shows(text) && toks != []
      modifies cache
      ensures Valid() && Shows(text + toks) && d == Next(m)(text + toks)
    {
      hide Holds;
      ChunkExact(m, CropAppend, cache.kc, text, toks);
      GrowsEvenly(m.stages[0], cache.kc, Embed(m, toks), |text|);
      var y := cache.RunBlock(|cache.kc[0]|, Embed(m, toks));
      d := m.head(y[|toks| - 1]);
    }

    method Prefill(ids: seq<Token>)
      requires Valid() && Shows([]) && ids != []
      modifies cache
      ensures Valid() && Shows(Seen(vocab, |ids|, ids))
    {
      var toks := Seen(vocab, |ids|, ids);
      assert [] + toks == toks;
      var _ := Append(toks, []);
    }

    method DNext(t: Token, ghost text: seq<Token>) returns (d: Token)
      requires Valid() && Shows(text)
      modifies cache
      ensures Valid() && Shows(text + [Fed(vocab, t)]) && d == Next(m)(text + [Fed(vocab, t)])
      ensures Shows(text + [if t < vocab then t else 0]) && d == Next(m)(text + [if t < vocab then t else 0])
    {
      d := Append([Fed(vocab, t)], text);
    }

    /** Keep the first n positions of every layer. */
    method CropTo(n: nat, ghost text: seq<Token>)
      requires Valid() && Shows(text) && n <= |text|
      modifies cache
      ensures Valid() && Shows(text[..n])
    {
      hide Holds;
      ghost var was := cache.kc;
      var kc := cache.kc;
      cache.kc := seq(|kc|, i requires 0 <= i < |kc| => Crop(kc[i], n));
      HoldsPrefix(m.stages[0], was, Embed(m, text), n);
      assert Embed(m, text)[..n] == Embed(m, text[..n]);
      CropHolds(m.stages[0], was, cache.kc, Embed(m, text[..n]));
    }

    method DraftK(tail: Token, K: nat, ghost n: nat, ghost stream: seq<Token>) returns (ds: seq<Token>)
      requires Valid() && n < |stream| && stream[|stream| - 1] == tail
      requires Shows(Seen(vocab, n, stream[..|stream| - 1]))
      modifies cache
      ensures Valid() && ds == Drafted(Next(m), vocab, Seen(vocab, n, stream[..|stream| - 1]), tail, K)
      ensures Shows(Seen(vocab, n, (stream + ds)[..|stream| - 1 + K]))
    {
      hide Drafting, Drafted, Next, Seen, Fed;
      var t := tail;
      ds := [];
      DraftingStart(Next(m), vocab, n, stream, K);
      for i := 0 to K
        invariant Valid() && |ds| == i && t == (stream + ds)[|stream| - 1 + i]
        invariant Shows(Behind(vocab, n, stream, ds)) && Drafting(Next(m), vocab, n, stream, ds, K)
      {
        DraftingStep(Next(m), vocab, n, stream, ds, K);
        t := DNext(t, Behind(vocab, n, stream, ds));
        ds := ds + [t];
      }
      DraftingDone(Next(m), vocab, n, stream, ds, K);
    }
  }

  lemma {:induction false} CropHolds(ls: seq<Layer>, a: Caches, b: Caches, xs: seq<Row>)
    requires |a| == |b| == |ls| && Holds(ls, a, xs) && forall i :: 0 <= i < |ls| ==> b[i] == Crop(a[i], |xs|)
    ensures Holds(ls, b, xs)
    decreases ls
  {
    if ls != [] {
      CropHolds(ls[1..], a[1..], b[1..], LayerRows(ls[0], xs));
    }
  }
}
