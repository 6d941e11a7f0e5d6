/** The ring of crop-and-append nodes: each message is a chunk of rows at a start position. */
module CropRing {
  import opened Decode
  import opened TargetModel
  import opened KvCache
  import opened Ring

  datatype Packet = Packet(start: nat, rows: seq<Row>)

  type RingState = Ring<Caches, Packet>

  /** A model, its next-token function, and the nodes serving its blocks. */
  datatype Net = Net(model: Model, next: Target, nodes: seq<Step<Caches, Packet>>)

  ghost predicate Faithful(n: Net) {
    Computes(n.model, n.next) && Serves(n.model.stages, n.nodes)
  }

  /** A node's serving loop on one message. */
  function NodeReply(ls: seq<Layer>, c: Caches, p: Packet): (Caches, Packet)
    requires |c| == |ls|
  {
    var (c', y) := HandleStep(ls, c, p.start, p.rows);
    (c', Packet(p.start, y))
  }

  ghost predicate Serves(stages: seq<seq<Layer>>, nodes: seq<Step<Caches, Packet>>) {
    |nodes| == |stages| &&
    forall i, c, p {:trigger nodes[i](c, p)} ::
      0 <= i < |stages| && |c| == |stages[i]| ==> nodes[i](c, p) == NodeReply(stages[i], c, p)
  }

  /** Every node's every layer holds the keys recomputation would give for `xs`. */
  predicate HoldsAll(stages: seq<seq<Layer>>, caches: seq<Caches>, xs: seq<Row>)
    requires |caches| == |stages|
    decreases |stages|
  {
    stages == [] ||
    (|caches[0]| == |stages[0]| && Holds(stages[0], caches[0], xs) &&
     HoldsAll(stages[1..], caches[1..], BlockRows(stages[0], xs)))
  }

  lemma {:induction false} HoldsAllPrefix(stages: seq<seq<Layer>>, caches: seq<Caches>, xs: seq<Row>, k: nat)
    requires |caches| == |stages| && HoldsAll(stages, caches, xs) && k <= |xs|
    ensures HoldsAll(stages, caches, xs[..k])
    decreases |stages|
  {
    if stages != [] {
      HoldsPrefix(stages[0], caches[0], xs, k);
      BlockCausal(stages[0], xs, k);
      HoldsAllPrefix(stages[1..], caches[1..], BlockRows(stages[0], xs), k);
    }
  }

  /** Caches of the right shape hold the empty text, whatever a previous prompt left in them. */
  lemma {:induction false} ShapedHoldsNothing(stages: seq<seq<Layer>>, caches: seq<Caches>)
    requires |caches| == |stages| && forall i :: 0 <= i < |stages| ==> |caches[i]| == |stages[i]|
    ensures HoldsAll(stages, caches, [])
    decreases |stages|
  {
    if stages != [] {
      HoldsNothing(stages[0], caches[0]);
      ShapedHoldsNothing(stages[1..], caches[1..]);
    }
  }

  lemma {:induction false} ServesTail(stages: seq<seq<Layer>>, nodes: seq<Step<Caches, Packet>>)
    requires Serves(stages, nodes) && stages != []
    ensures Serves(stages[1..], nodes[1..])
  {
    forall i, c, p {:trigger nodes[1..][i](c, p)} | 0 <= i < |stages[1..]| && |c| == |stages[1..][i]|
      ensures nodes[1..][i](c, p) == NodeReply(stages[1..][i], c, p)
    {
      assert nodes[i + 1](c, p) == NodeReply(stages[i + 1], c, p);
    }
  }

  /** A chunk carried through the whole ring gives the recomputed rows, and leaves every cache
      holding the extended text. */
  lemma {:induction false} PassExact(stages: seq<seq<Layer>>, nodes: seq<Step<Caches, Packet>>, caches: seq<Caches>,
                                     pre: seq<Row>, xs: seq<Row>)
    requires Serves(stages, nodes) && |caches| == |stages| && HoldsAll(stages, caches, pre)
    ensures var r := Pass(nodes, caches, Packet(|pre|, xs));
            r.1 == Packet(|pre|, StackRows(stages, pre + xs)[|pre|..]) && HoldsAll(stages, r.0, pre + xs)
    decreases |stages|
  {
    hide Holds, BlockRows, BlockStep, Emptied;
    if stages == [] {
      assert (pre + xs)[|pre|..] == xs;
    } else {
      var ls := stages[0];
      var c := if |pre| == 0 then Emptied(ls) else caches[0];
      if |pre| == 0 { assert pre == []; HoldsNothing(ls, c); }
      BlockExact(CropAppend, ls, c, pre, xs);
      BlockCausal(ls, pre + xs, |pre|);
      assert (pre + xs)[..|pre|] == pre;
      var pre', xs' := BlockRows(ls, pre), BlockRows(ls, pre + xs)[|pre|..];
      assert pre' + xs' == BlockRows(ls, pre + xs);
      assert nodes[0](caches[0], Packet(|pre|, xs)) == NodeReply(ls, caches[0], Packet(|pre|, xs));
      ServesTail(stages, nodes);
      PassExact(stages[1..], nodes[1..], caches[1..], pre', xs');
    }
  }

  /** The coordinator's reading of a reply: the head's argmax at every position. */
  function Tokens(m: Model, p: Packet): (r: seq<Token>)
    ensures |r| == |p.rows|
    ensures forall j :: 0 <= j < |r| ==> r[j] == m.head(p.rows[j])
  {
    seq(|p.rows|, j requires 0 <= j < |p.rows| => m.head(p.rows[j]))
  }

  function AllTokens(m: Model, ps: seq<Packet>): (r: seq<seq<Token>>)
    ensures |r| == |ps|
    ensures forall j :: 0 <= j < |r| ==> r[j] == Tokens(m, ps[j])
  {
    seq(|ps|, j requires 0 <= j < |ps| => Tokens(m, ps[j]))
  }

  function ChunkPacket(m: Model, start: nat, toks: seq<Token>): Packet {
    Packet(start, Embed(m, toks))
  }

  predicate ShapedFor(n: Net, r: RingState) {
    |n.nodes| == |n.model.stages| && Shaped(n.nodes, r)
  }

  /** The replies still to come, as tokens. */
  function Owed(n: Net, r: RingState): seq<seq<Token>>
    requires ShapedFor(n, r)
  {
    AllTokens(n.model, DrainOf(n.nodes, r).1)
  }

  /** Once dry, every cache will hold `text`. */
  predicate WillHold(n: Net, r: RingState, text: seq<Token>)
    requires ShapedFor(n, r)
  {
    HoldsAll(n.model.stages, DrainOf(n.nodes, r).0, Embed(n.model, text))
  }

  lemma {:induction false} WillHoldPrefix(n: Net, r: RingState, text: seq<Token>, part: seq<Token>)
    requires ShapedFor(n, r) && WillHold(n, r, text) && part <= text
    ensures WillHold(n, r, part)
  {
    assert Embed(n.model, text)[..|part|] == Embed(n.model, part);
    HoldsAllPrefix(n.model.stages, DrainOf(n.nodes, r).0, Embed(n.model, text), |part|);
  }

  /** A chunk sent where the caches will hold its prefix is owed the target's verdicts - wherever
      the stages are in the stream, and whatever stale chunks are still ahead of it. */
  lemma {:induction false} SendVerdicts(n: Net, r: RingState, text: seq<Token>, start: nat)
    requires Faithful(n) && ShapedFor(n, r) && start <= |text| && WillHold(n, r, text[..start])
    ensures var r' := Send(r, ChunkPacket(n.model, start, text[start..]));
            ShapedFor(n, r') && WillHold(n, r', text) &&
            Owed(n, r') == Owed(n, r) + [Verdicts(n.next, text, start)]
  {
    var sent := ChunkPacket(n.model, start, text[start..]);
    PassVerdicts(n, DrainOf(n.nodes, r).0, text, start);
    SendOwes(n, r, sent);
  }

  lemma {:induction false} SendOwes(n: Net, r: RingState, sent: Packet)
    requires ShapedFor(n, r)
    ensures var p := Pass(n.nodes, DrainOf(n.nodes, r).0, sent);
            ShapedFor(n, Send(r, sent)) && DrainOf(n.nodes, Send(r, sent)).0 == p.0 &&
            Owed(n, Send(r, sent)) == Owed(n, r) + [Tokens(n.model, p.1)]
  {
    SendDrains(n.nodes, r, sent);
    var d := DrainOf(n.nodes, r);
    var p := Pass(n.nodes, d.0, sent).1;
    assert AllTokens(n.model, d.1 + [p]) == AllTokens(n.model, d.1) + [Tokens(n.model, p)];
  }

  lemma {:induction false} PassVerdicts(n: Net, caches: seq<Caches>, text: seq<Token>, start: nat)
    requires Faithful(n) && |caches| == |n.nodes| && start <= |text| &&
             HoldsAll(n.model.stages, caches, Embed(n.model, text[..start]))
    ensures var r := Pass(n.nodes, caches, ChunkPacket(n.model, start, text[start..]));
            Tokens(n.model, r.1) == Verdicts(n.next, text, start) && HoldsAll(n.model.stages, r.0, Embed(n.model, text))
  {
    assert Embed(n.model, text[..start]) + Embed(n.model, text[start..]) == Embed(n.model, text);
    PassExact(n.model.stages, n.nodes, caches, Embed(n.model, text[..start]), Embed(n.model, text[start..]));
    VerdictsFromOnePass(n.model, n.next, text, start);
  }

  lemma {:induction false} ProceedOwes(n: Net, r: RingState, s: nat)
    requires ShapedFor(n, r) && Busy(n.nodes, r, s)
    ensures var r' := Proceed(n.nodes, r, s);
            ShapedFor(n, r') && Owed(n, r') == Owed(n, r) &&
            DrainOf(n.nodes, r') == DrainOf(n.nodes, r)
  {
    ProceedKeepsDrain(n.nodes, r, s);
  }

  lemma {:induction false} ReceiveOwes(n: Net, r: RingState)
    requires ShapedFor(n, r) && Replies(r) != []
    ensures Owed(n, r) != [] && Tokens(n.model, Replies(r)[0]) == Owed(n, r)[0]
    ensures ShapedFor(n, Receive(r)) && Owed(n, Receive(r)) == Owed(n, r)[1..]
    ensures DrainOf(n.nodes, Receive(r)).0 == DrainOf(n.nodes, r).0
  {
    ReceiveDrains(n.nodes, r);
  }

  /** An idle ring, of the right shape: nothing on the links, anything in the caches. */
  predicate Ready(n: Net, r: RingState) {
    && ShapedFor(n, r) && Idle(r)
    && forall i :: 0 <= i < |n.model.stages| ==> |r.caches[i]| == |n.model.stages[i]|
  }

  lemma {:induction false} ReadyOwesNothing(n: Net, r: RingState)
    requires Ready(n, r)
    ensures Owed(n, r) == [] && WillHold(n, r, [])
  {
    IdleDrain(n.nodes, r);
    ShapedHoldsNothing(n.model.stages, r.caches);
    assert Embed(n.model, []) == [];
  }

  lemma {:induction false} HoldersShaped(stages: seq<seq<Layer>>, caches: seq<Caches>, xs: seq<Row>)
    requires |caches| == |stages| && HoldsAll(stages, caches, xs)
    ensures forall i :: 0 <= i < |stages| ==> |caches[i]| == |stages[i]|
    decreases |stages|
  {
    if stages != [] {
      HoldersShaped(stages[1..], caches[1..], BlockRows(stages[0], xs));
      forall i | 0 <= i < |stages| ensures |caches[i]| == |stages[i]| {
        assert i > 0 ==> caches[i] == caches[1..][i - 1] && stages[i] == stages[1..][i - 1];
      }
    }
  }

  /** A ring that owes nothing is ready for the next prompt. */
  lemma {:induction false} SettledIsReady(n: Net, r: RingState, text: seq<Token>)
    requires ShapedFor(n, r) && Owed(n, r) == [] && WillHold(n, r, text)
    ensures Ready(n, r)
  {
    NothingOwedIsIdle(n.nodes, r);
    IdleDrain(n.nodes, r);
    HoldersShaped(n.model.stages, r.caches, Embed(n.model, text));
  }

  /** Every model has a faithful net. */
  function NetOf(m: Model): Net {
    var node := (ls: seq<Layer>) =>
      (c: Caches, p: Packet) => if |c| == |ls| then NodeReply(ls, c, p) else (c, p);
    Net(m, Next(m), seq(|m.stages|, i requires 0 <= i < |m.stages| => node(m.stages[i])))
  }

  lemma {:induction false} NetOfFaithful(m: Model)
    ensures Faithful(NetOf(m)) && NetOf(m).model == m
  {
    NextComputes(m);
  }
}
