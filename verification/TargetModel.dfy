/** The target model, and the decode every fast path must reproduce: recompute the whole
    sequence for each new token, keep nothing between tokens. */
module TargetModel {
  import opened Decode

  /** One position's hidden state, as raw machine words. */
  type Row = seq<int>

  datatype KV = KV(key: Row, value: Row)

  /** One decoder layer. `project` makes the key/value of an input row at an absolute (rotary)
      position; `attend` makes the output row from the input row, its position and the
      key/values the mask lets it see (softmax attention does not depend on their order).
      `window` is the sliding-window size, 0 for full attention. */
  datatype Layer = Layer(
    window: nat,
    project: (Row, nat) -> KV,
    attend: (Row, nat, multiset<KV>) -> Row)

  /** `stages` cuts the layers into the contiguous blocks held by the ring's nodes. */
  datatype Model = Model(embed: Token -> Row, stages: seq<seq<Layer>>, head: Row -> Token)

  /** The keys a query at absolute position `p` attends under the causal / sliding mask. */
  function Visible(window: nat, kv: seq<KV>, p: nat): multiset<KV> {
    var hi := Min(p + 1, |kv|);
    var lo := if window == 0 then 0 else Min(Max(0, p + 1 - window), hi);
    multiset(kv[lo..hi])
  }

  function Projected(l: Layer, xs: seq<Row>, start: nat): (kv: seq<KV>)
    ensures |kv| == |xs|
    ensures forall i :: 0 <= i < |xs| ==> kv[i] == l.project(xs[i], start + i)
  {
    seq(|xs|, i requires 0 <= i < |xs| => l.project(xs[i], start + i))
  }

  // ----- recompute: no cache -----

  function LayerRows(l: Layer, xs: seq<Row>): (ys: seq<Row>)
    ensures |ys| == |xs|
    ensures forall p :: 0 <= p < |xs| ==>
                          ys[p] == l.attend(xs[p], p, Visible(l.window, Projected(l, xs, 0), p))
  {
    seq(|xs|, p requires 0 <= p < |xs| => l.attend(xs[p], p, Visible(l.window, Projected(l, xs, 0), p)))
  }

  function BlockRows(ls: seq<Layer>, xs: seq<Row>): (ys: seq<Row>)
    ensures |ys| == |xs|
  {
    if ls == [] then xs else BlockRows(ls[1..], LayerRows(ls[0], xs))
  }

  function StackRows(stages: seq<seq<Layer>>, xs: seq<Row>): (ys: seq<Row>)
    ensures |ys| == |xs|
  {
    if stages == [] then xs else StackRows(stages[1..], BlockRows(stages[0], xs))
  }

  function Embed(m: Model, toks: seq<Token>): (xs: seq<Row>)
    ensures |xs| == |toks|
    ensures forall i :: 0 <= i < |toks| ==> xs[i] == m.embed(toks[i])
  {
    seq(|toks|, i requires 0 <= i < |toks| => m.embed(toks[i]))
  }

  /** `next` answers every text with the recomputed last row, read by the head. */
  ghost predicate Computes(m: Model, next: Target) {
    forall toks {:trigger StackRows(m.stages, Embed(m, toks))} ::
      toks != [] ==> next(toks) == m.head(StackRows(m.stages, Embed(m, toks))[|toks| - 1])
  }

  function Recomputed(m: Model, toks: seq<Token>): Token {
    if toks == [] then 0 else m.head(StackRows(m.stages, Embed(m, toks))[|toks| - 1])
  }

  /** Such a function exists for every model (nothing is asked of an empty text). */
  function Next(m: Model): Target {
    toks => Recomputed(m, toks)
  }

  lemma {:induction false} NextComputes(m: Model)
    ensures Computes(m, Next(m))
  {
    hide StackRows, Embed;
    forall toks {:trigger StackRows(m.stages, Embed(m, toks))} | toks != []
      ensures Next(m)(toks) == m.head(StackRows(m.stages, Embed(m, toks))[|toks| - 1])
    {
      assert Next(m)(toks) == Recomputed(m, toks);
    }
  }

  // ----- causality: a row never depends on later input -----

  /** Only the first p + 1 keys matter to a query at position p. */
  lemma {:induction false} VisiblePrefix(window: nat, a: seq<KV>, b: seq<KV>, p: nat)
    requires p < |a| && p < |b| && a[..p + 1] == b[..p + 1]
    ensures Visible(window, a, p) == Visible(window, b, p)
  {
    var lo := if window == 0 then 0 else Min(Max(0, p + 1 - window), p + 1);
    assert a[lo..p + 1] == a[..p + 1][lo..];
    assert b[lo..p + 1] == b[..p + 1][lo..];
  }

  lemma {:induction false} LayerCausal(l: Layer, xs: seq<Row>, k: nat)
    requires k <= |xs|
    ensures LayerRows(l, xs[..k]) == LayerRows(l, xs)[..k]
  {
    var a, b := Projected(l, xs[..k], 0), Projected(l, xs, 0);
    assert a == b[..k];
    forall p {:trigger LayerRows(l, xs)[p]} | 0 <= p < k
      ensures LayerRows(l, xs[..k])[p] == LayerRows(l, xs)[p]
    {
      VisiblePrefix(l.window, a, b, p);
    }
  }

  lemma {:induction false} BlockCausal(ls: seq<Layer>, xs: seq<Row>, k: nat)
    requires k <= |xs|
    ensures BlockRows(ls, xs[..k]) == BlockRows(ls, xs)[..k]
    decreases ls
  {
    if ls != [] {
      LayerCausal(ls[0], xs, k);
      BlockCausal(ls[1..], LayerRows(ls[0], xs), k);
    }
  }

  lemma {:induction false} StackCausal(stages: seq<seq<Layer>>, xs: seq<Row>, k: nat)
    requires k <= |xs|
    ensures StackRows(stages, xs[..k]) == StackRows(stages, xs)[..k]
    decreases stages
  {
    if stages != [] {
      BlockCausal(stages[0], xs, k);
      StackCausal(stages[1..], BlockRows(stages[0], xs), k);
    }
  }

  /** One pass over the whole sequence answers every prefix at once. */
  lemma {:induction false} VerdictsFromOnePass(m: Model, next: Target, toks: seq<Token>, start: nat)
    requires start <= |toks| && Computes(m, next)
    ensures forall j :: 0 <= j < |toks| - start ==>
                          Verdicts(next, toks, start)[j] == m.head(StackRows(m.stages, Embed(m, toks))[start + j])
  {
    var rows := StackRows(m.stages, Embed(m, toks));
    forall j | 0 <= j < |toks| - start
      ensures Verdicts(next, toks, start)[j] == m.head(rows[start + j])
    {
      var k := start + j + 1;
      assert Embed(m, toks)[..k] == Embed(m, toks[..k]);
      StackCausal(m.stages, Embed(m, toks), k);
    }
  }
}
