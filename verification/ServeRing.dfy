/** The ring of fixed-buffer nodes: the serving loop's messages, its `first` flag, padded prefill
    and the tail's trimmed prefill reply. */
module ServeRing {
  import opened Decode
  import opened TargetModel
  import opened KvCache
  import opened Ring
  import opened FastVerify

  /** `Broken` stands for a link that a refused message has torn down. */
  datatype Msg = Reset | Verify(start: nat, rows: seq<Row>, prefill: bool) | Broken

  /** `first` is set until the first verify after a reset, which is always a prefill. */
  datatype NodeState = NodeState(first: bool, bufs: Caches)

  /** What a node is built with; the last one is the tail. */
  datatype Node = Node(ls: seq<Layer>, tail: bool, zero: Row, maxlen: nat)

  /** The serving loop on one message. */
  function Serve(node: Node, s: NodeState, m: Msg): (NodeState, Msg)
    requires |s.bufs| == |node.ls|
  {
    match m
    case Reset => (NodeState(true, seq(|node.ls|, i => Blank(node.zero, node.maxlen))), Reset)
    case Broken => (s, Broken)
    case Verify(start, rows, prefill) =>
      if start + |rows| > node.maxlen then (s, Broken)
      else
        var isPf := s.first || prefill;
        var pad := if isPf then Zeros(node.zero, Padded(|rows|, start, node.maxlen) - |rows|) else [];
        var r := BlockStep(Overwrite, node.ls, s.bufs, rows + pad, start);
        var ys := r.1[..|rows|];
        var back := if node.tail && isPf && ys != [] then ys[|ys| - 1..] else ys;
        (NodeState(false, r.0), Verify(start, back, prefill))
  }

  /** A serving node: its fixed buffers and its `first` flag. */
  class ServeNode {
    const fv: FastVerify
    const tail: bool
    var first: bool

    ghost predicate Valid()
      reads this, fv.bufs
    {
      fv.Valid()
    }

    ghost function State(): NodeState
      reads this, fv.bufs
    {
      NodeState(first, fv.Contents())
    }

    function Spec(): Node {
      Node(fv.ls, tail, fv.zero, fv.maxlen)
    }

    constructor (fv: FastVerify, tail: bool)
      requires fv.Valid()
      ensures Valid() && this.fv == fv && this.tail == tail && State() == NodeState(true, fv.Contents())
    {
      this.fv, this.tail, first := fv, tail, true;
    }

    /** One message: a reset, or a chunk verified in place - padded while it is prefill, refused
        when it does not fit. */
    method Handle(m: Msg) returns (reply: Msg)
      requires Valid()
      modifies this, fv.bufs
      ensures Valid() && |old(State()).bufs| == |Spec().ls|
      ensures (State(), reply) == Serve(Spec(), old(State()), m)
    {
      hide BlockStep;
      match m
      case Reset =>
        fv.Reset();
        first := true;
        assert fv.Contents() == seq(|fv.ls|, i => Blank(fv.zero, fv.maxlen));
        return Reset;
      case Broken =>
        return Broken;
      case Verify(start, rows, prefill) =>
        var isPf := first || prefill;
        var res: Verified;
        if isPf {
          res := fv.Prefill(rows, start);
        } else {
          assert rows + [] == rows;
          res := fv.Decode(rows, start);
        }
        if res.ContextOverflow? {
          return Broken;
        }
        first := false;
        var ys := res.rows;
        assert ys == ys[..|rows|];
        return Verify(start, if tail && isPf && ys != [] then ys[|ys| - 1..] else ys, prefill);
    }
  }

  datatype Net = Net(model: Model, next: Target, zero: Row, maxlen: nat, nodes: seq<Step<NodeState, Msg>>)

  ghost predicate Faithful(n: Net) {
    n.model.stages != [] && Computes(n.model, n.next) && Serves(n.model.stages, n.zero, n.maxlen, n.nodes)
  }

  function NodeAt(stages: seq<seq<Layer>>, zero: Row, maxlen: nat, i: nat): Node
    requires i < |stages|
  {
    Node(stages[i], i == |stages| - 1, zero, maxlen)
  }

  ghost predicate Serves(stages: seq<seq<Layer>>, zero: Row, maxlen: nat, nodes: seq<Step<NodeState, Msg>>) {
    |nodes| == |stages| &&
    forall i, s: NodeState, m {:trigger nodes[i](s, m)} ::
      0 <= i < |stages| && |s.bufs| == |stages[i]| ==>
        nodes[i](s, m) == Serve(NodeAt(stages, zero, maxlen, i), s, m)
  }

  lemma {:induction false} ServesTail(stages: seq<seq<Layer>>, zero: Row, maxlen: nat, nodes: seq<Step<NodeState, Msg>>)
    requires Serves(stages, zero, maxlen, nodes) && stages != []
    ensures Serves(stages[1..], zero, maxlen, nodes[1..])
  {
    hide Serve;
    forall i, s: NodeState, m {:trigger nodes[1..][i](s, m)} | 0 <= i < |stages[1..]| && |s.bufs| == |stages[1..][i]|
      ensures nodes[1..][i](s, m) == Serve(NodeAt(stages[1..], zero, maxlen, i), s, m)
    {
      assert nodes[i + 1](s, m) == Serve(NodeAt(stages, zero, maxlen, i + 1), s, m);
      assert NodeAt(stages[1..], zero, maxlen, i) == NodeAt(stages, zero, maxlen, i + 1);
    }
  }

  /** One node holds `xs` in buffers of the right size. */
  predicate NodeHolds(ls: seq<Layer>, maxlen: nat, s: NodeState, xs: seq<Row>, first: bool) {
    && s.first == first && |s.bufs| == |ls|
    && (forall i :: 0 <= i < |ls| ==> |s.bufs[i]| == maxlen)
    && Holds(ls, s.bufs, xs)
  }

  predicate HoldsAll(stages: seq<seq<Layer>>, maxlen: nat, states: seq<NodeState>, xs: seq<Row>, first: bool)
    requires |states| == |stages|
    decreases |stages|
  {
    stages == [] ||
    (NodeHolds(stages[0], maxlen, states[0], xs, first) &&
     HoldsAll(stages[1..], maxlen, states[1..], BlockRows(stages[0], xs), first))
  }

  lemma {:induction false} HoldsAllPrefix(stages: seq<seq<Layer>>, maxlen: nat, states: seq<NodeState>, xs: seq<Row>,
                                          first: bool, k: nat)
    requires |states| == |stages| && HoldsAll(stages, maxlen, states, xs, first) && k <= |xs|
    ensures HoldsAll(stages, maxlen, states, xs[..k], first)
    decreases |stages|
  {
    hide Holds, BlockRows;
    if stages != [] {
      HoldsPrefix(stages[0], states[0].bufs, xs, k);
      BlockCausal(stages[0], xs, k);
      HoldsAllPrefix(stages[1..], maxlen, states[1..], BlockRows(stages[0], xs), first, k);
    }
  }

  /** What a node emits for a chunk on top of what it holds, prefill padding and trimming included. */
  lemma {:induction false} NodeExact(node: Node, s: NodeState, pre: seq<Row>, xs: seq<Row>, prefill: bool)
    requires NodeHolds(node.ls, node.maxlen, s, pre, s.first) && |pre| + |xs| <= node.maxlen
    ensures var r := Serve(node, s, Verify(|pre|, xs, prefill));
            var ys := BlockRows(node.ls, pre + xs)[|pre|..];
            NodeHolds(node.ls, node.maxlen, r.0, pre + xs, false) &&
            r.1 == Verify(|pre|, if node.tail && (s.first || prefill) && ys != [] then ys[|ys| - 1..] else ys, prefill)
  {
    hide Holds, BlockRows, BlockStep;
    var isPf := s.first || prefill;
    var pad := if isPf then Zeros(node.zero, Padded(|xs|, |pre|, node.maxlen) - |xs|) else [];
    PaddingInvisible(node.ls, s.bufs, pre, xs, pad);
    BlockKeepsRoom(node.ls, s.bufs, xs + pad, |pre|);
  }

  /** A chunk carried through the whole ring: the recomputed rows - only the last of them for a
      prefill - and buffers that hold the extended text, whatever junk lies beyond it. */
  lemma {:induction false} PassExact(stages: seq<seq<Layer>>, zero: Row, maxlen: nat, nodes: seq<Step<NodeState, Msg>>,
                                     states: seq<NodeState>, pre: seq<Row>, xs: seq<Row>, first: bool, prefill: bool)
    requires stages != [] && Serves(stages, zero, maxlen, nodes) && |states| == |stages|
    requires HoldsAll(stages, maxlen, states, pre, first) && |pre| + |xs| <= maxlen && xs != []
    ensures var r := Pass(nodes, states, Verify(|pre|, xs, prefill));
            var ys := StackRows(stages, pre + xs)[|pre|..];
            HoldsAll(stages, maxlen, r.0, pre + xs, false) &&
            r.1 == Verify(|pre|, if first || prefill then ys[|ys| - 1..] else ys, prefill)
    decreases |stages|
  {
    hide Holds, BlockRows, Serve, NodeHolds;
    var ls, node, m := stages[0], NodeAt(stages, zero, maxlen, 0), Verify(|pre|, xs, prefill);
    HoldsHead(stages, maxlen, states, pre, first);
    assert nodes[0](states[0], m) == Serve(node, states[0], m);
    NodeExact(node, states[0], pre, xs, prefill);
    var pre', all := BlockRows(ls, pre), BlockRows(ls, pre + xs);
    BlockCausal(ls, pre + xs, |pre|);
    assert (pre + xs)[..|pre|] == pre;
    assert pre' + all[|pre|..] == all;
    if |stages| == 1 {
      PassOne(nodes, states, m);
      assert StackRows(stages, pre + xs) == StackRows([], all);
    } else {
      ServesTail(stages, zero, maxlen, nodes);
      PassExact(stages[1..], zero, maxlen, nodes[1..], states[1..], pre', all[|pre|..], first, prefill);
    }
  }

  lemma {:induction false} HoldsHead(stages: seq<seq<Layer>>, maxlen: nat, states: seq<NodeState>, xs: seq<Row>,
                                     first: bool)
    requires stages != [] && |states| == |stages| && HoldsAll(stages, maxlen, states, xs, first)
    ensures NodeHolds(stages[0], maxlen, states[0], xs, first) && |states[0].bufs| == |stages[0]|
    ensures states[0].first == first
  {
  }

  lemma {:induction false} PassOne(nodes: seq<Step<NodeState, Msg>>, states: seq<NodeState>, m: Msg)
    requires |nodes| == |states| == 1
    ensures var (s, m') := nodes[0](states[0], m); Pass(nodes, states, m) == ([s], m')
  {
    assert nodes[1..] == [] && states[1..] == [];
    assert [nodes[0](states[0], m).0] + [] == [nodes[0](states[0], m).0];
  }

  /** Buffers of the right number and size, whatever they contain. */
  predicate SizedFor(stages: seq<seq<Layer>>, maxlen: nat, states: seq<NodeState>) {
    |states| == |stages| &&
    forall i :: 0 <= i < |stages| ==> Sized(stages[i], maxlen, states[i])
  }

  predicate Sized(ls: seq<Layer>, maxlen: nat, s: NodeState) {
    |s.bufs| == |ls| && forall k :: 0 <= k < |ls| ==> |s.bufs[k]| == maxlen
  }

  /** A reset passes through every node and leaves them all empty, at the start of a generation. */
  lemma {:induction false} PassReset(stages: seq<seq<Layer>>, zero: Row, maxlen: nat, nodes: seq<Step<NodeState, Msg>>,
                                     states: seq<NodeState>)
    requires Serves(stages, zero, maxlen, nodes) && SizedFor(stages, maxlen, states)
    ensures var r := Pass(nodes, states, Reset);
            r.1 == Reset && HoldsAll(stages, maxlen, r.0, [], true)
    decreases |stages|
  {
    hide Holds, BlockRows;
    if stages != [] {
      assert Sized(stages[0], maxlen, states[0]);
      assert nodes[0](states[0], Reset) == Serve(NodeAt(stages, zero, maxlen, 0), states[0], Reset);
      var s := Serve(NodeAt(stages, zero, maxlen, 0), states[0], Reset).0;
      HoldsNothing(stages[0], s.bufs);
      ServesTail(stages, zero, maxlen, nodes);
      forall i | 0 <= i < |stages[1..]| ensures Sized(stages[1..][i], maxlen, states[1..][i]) {
        assert Sized(stages[i + 1], maxlen, states[i + 1]);
      }
      PassReset(stages[1..], zero, maxlen, nodes[1..], states[1..]);
    }
  }

  // ----- the ring as its coordinator sees it -----

  type RingState = Ring<NodeState, Msg>

  predicate ShapedFor(n: Net, r: RingState) {
    |n.nodes| == |n.model.stages| && Shaped(n.nodes, r)
  }

  /** The tail's tokens in a reply. */
  function Tokens(m: Model, reply: Msg): (r: seq<Token>)
    ensures reply.Verify? ==> |r| == |reply.rows| && forall j :: 0 <= j < |r| ==> r[j] == m.head(reply.rows[j])
  {
    match reply
    case Verify(_, rows, _) => seq(|rows|, j requires 0 <= j < |rows| => m.head(rows[j]))
    case _ => []
  }

  function AllTokens(m: Model, ms: seq<Msg>): (r: seq<seq<Token>>)
    ensures |r| == |ms| && forall j :: 0 <= j < |r| ==> r[j] == Tokens(m, ms[j])
  {
    seq(|ms|, j requires 0 <= j < |ms| => Tokens(m, ms[j]))
  }

  /** The replies still to come. */
  function Coming(n: Net, r: RingState): seq<Msg>
    requires ShapedFor(n, r)
  {
    DrainOf(n.nodes, r).1
  }

  /** Their greedy tokens. */
  function Owed(n: Net, r: RingState): (owed: seq<seq<Token>>)
    requires ShapedFor(n, r)
    ensures |owed| == |Coming(n, r)|
  {
    AllTokens(n.model, Coming(n, r))
  }

  /** Once dry, every buffer will hold `text`. */
  predicate WillHold(n: Net, r: RingState, text: seq<Token>, first: bool)
    requires ShapedFor(n, r)
  {
    HoldsAll(n.model.stages, n.maxlen, DrainOf(n.nodes, r).0, Embed(n.model, text), first)
  }

  lemma {:induction false} WillHoldPrefix(n: Net, r: RingState, text: seq<Token>, first: bool, part: seq<Token>)
    requires ShapedFor(n, r) && WillHold(n, r, text, first) && part <= text
    ensures WillHold(n, r, part, first)
  {
    assert Embed(n.model, text)[..|part|] == Embed(n.model, part);
    HoldsAllPrefix(n.model.stages, n.maxlen, DrainOf(n.nodes, r).0, Embed(n.model, text), first, |part|);
  }

  function ChunkMsg(m: Model, start: nat, toks: seq<Token>, prefill: bool): Msg {
    Verify(start, Embed(m, toks), prefill)
  }

  /** The recomputed row at a text's end. */
  function LastRow(m: Model, text: seq<Token>): Row
    requires text != []
  {
    StackRows(m.stages, Embed(m, text))[|text| - 1]
  }

  /** The recomputed rows from `start` on. */
  function RowsFrom(m: Model, text: seq<Token>, start: nat): (rows: seq<Row>)
    requires start <= |text|
    ensures |rows| == |text| - start
  {
    StackRows(m.stages, Embed(m, text))[start..]
  }

  /** Each of them is what recomputing up to its own position ends in. */
  lemma {:induction false} RowsFromAt(m: Model, text: seq<Token>, start: nat, j: nat)
    requires start + j < |text|
    ensures RowsFrom(m, text, start)[j] == LastRow(m, text[..start + j + 1])
  {
    var k := start + j + 1;
    assert Embed(m, text)[..k] == Embed(m, text[..k]);
    StackCausal(m.stages, Embed(m, text), k);
  }

  /** The reply to a chunk: the recomputed rows of its own tokens, or the last row alone. */
  function Reply(m: Model, text: seq<Token>, start: nat, lastOnly: bool, prefill: bool): (reply: Msg)
    requires start < |text|
    ensures reply.Verify? && |reply.rows| == if lastOnly then 1 else |text| - start
  {
    Verify(start, if lastOnly then [LastRow(m, text)] else RowsFrom(m, text, start), prefill)
  }

  lemma {:induction false} PassRows(n: Net, states: seq<NodeState>, text: seq<Token>, start: nat, first: bool,
                                    prefill: bool)
    requires Faithful(n) && |states| == |n.nodes| && start < |text| <= n.maxlen
    requires HoldsAll(n.model.stages, n.maxlen, states, Embed(n.model, text[..start]), first)
    ensures var r := Pass(n.nodes, states, ChunkMsg(n.model, start, text[start..], prefill));
            HoldsAll(n.model.stages, n.maxlen, r.0, Embed(n.model, text), false) &&
            r.1 == Reply(n.model, text, start, first || prefill, prefill)
  {
    hide HoldsAll, StackRows, Pass;
    var m := n.model;
    var pre, xs, all := Embed(m, text[..start]), Embed(m, text[start..]), Embed(m, text);
    assert pre + xs == all;
    PassExact(m.stages, n.zero, n.maxlen, n.nodes, states, pre, xs, first, prefill);
  }

  lemma {:induction false} ReplyVerdicts(n: Net, text: seq<Token>, start: nat, lastOnly: bool, prefill: bool)
    requires Computes(n.model, n.next) && start < |text|
    ensures Tokens(n.model, Reply(n.model, text, start, lastOnly, prefill))
         == if lastOnly then [n.next(text)] else Verdicts(n.next, text, start)
  {
    VerdictsFromOnePass(n.model, n.next, text, start);
    assert text[..start + (|text| - start - 1) + 1] == text;
  }

  lemma {:induction false} PassVerdicts(n: Net, states: seq<NodeState>, text: seq<Token>, start: nat, first: bool,
                                        prefill: bool)
    requires Faithful(n) && |states| == |n.nodes| && start < |text| <= n.maxlen
    requires HoldsAll(n.model.stages, n.maxlen, states, Embed(n.model, text[..start]), first)
    ensures var r := Pass(n.nodes, states, ChunkMsg(n.model, start, text[start..], prefill));
            HoldsAll(n.model.stages, n.maxlen, r.0, Embed(n.model, text), false) &&
            Tokens(n.model, r.1) == if first || prefill then [n.next(text)] else Verdicts(n.next, text, start)
  {
    hide HoldsAll, Reply;
    PassRows(n, states, text, start, first, prefill);
    ReplyVerdicts(n, text, start, first || prefill, prefill);
  }

  /** A chunk sent where the buffers will hold its prefix is owed its recomputed rows - the last one alone
      if it is a prefill - whatever stale or padded junk lies in the buffers. */
  lemma {:induction false} SendRows(n: Net, r: RingState, text: seq<Token>, start: nat, first: bool, prefill: bool)
    requires Faithful(n) && ShapedFor(n, r) && start < |text| <= n.maxlen
    requires WillHold(n, r, text[..start], first)
    ensures var r' := Send(r, ChunkMsg(n.model, start, text[start..], prefill));
            ShapedFor(n, r') && WillHold(n, r', text, false) &&
            Coming(n, r') == Coming(n, r) + [Reply(n.model, text, start, first || prefill, prefill)]
  {
    hide HoldsAll, Faithful, Reply;
    PassRows(n, DrainOf(n.nodes, r).0, text, start, first, prefill);
    SendDrains(n.nodes, r, ChunkMsg(n.model, start, text[start..], prefill));
  }

  /** Read by the head, those rows are the target's verdicts - the next token alone for a prefill. */
  lemma {:induction false} SendVerdicts(n: Net, r: RingState, text: seq<Token>, start: nat, first: bool, prefill: bool)
    requires Faithful(n) && ShapedFor(n, r) && start < |text| <= n.maxlen
    requires WillHold(n, r, text[..start], first)
    ensures var r' := Send(r, ChunkMsg(n.model, start, text[start..], prefill));
            ShapedFor(n, r') && WillHold(n, r', text, false) &&
            Owed(n, r') == Owed(n, r) + [if first || prefill then [n.next(text)] else Verdicts(n.next, text, start)]
  {
    hide HoldsAll, Faithful;
    var sent := ChunkMsg(n.model, start, text[start..], prefill);
    PassVerdicts(n, DrainOf(n.nodes, r).0, text, start, first, prefill);
    SendOwes(n, r, sent);
  }

  lemma {:induction false} SendOwes(n: Net, r: RingState, sent: Msg)
    requires ShapedFor(n, r)
    ensures var p := Pass(n.nodes, DrainOf(n.nodes, r).0, sent);
            ShapedFor(n, Send(r, sent)) && DrainOf(n.nodes, Send(r, sent)).0 == p.0 &&
            Owed(n, Send(r, sent)) == Owed(n, r) + [Tokens(n.model, p.1)]
  {
    SendDrains(n.nodes, r, sent);
    var d := DrainOf(n.nodes, r);
    var p := Pass(n.nodes, d.0, sent).1;
    assert AllTokens(n.model, d.1 + [p]) == AllTokens(n.model, d.1) + [Tokens(n.model, p)];
  }

  /** A freshly joined or healed ring: idle, buffers of the right size, any contents. */
  predicate Ready(n: Net, r: RingState) {
    ShapedFor(n, r) && Idle(r) && SizedFor(n.model.stages, n.maxlen, r.caches)
  }

  lemma {:induction false} SendReset(n: Net, r: RingState)
    requires Faithful(n) && Ready(n, r)
    ensures var r' := Send(r, Reset);
            ShapedFor(n, r') && WillHold(n, r', [], true) && |Owed(n, r')| == 1
  {
    hide HoldsAll;
    IdleDrain(n.nodes, r);
    PassReset(n.model.stages, n.zero, n.maxlen, n.nodes, r.caches);
    SendOwes(n, r, Reset);
    assert Embed(n.model, []) == [];
  }

  lemma {:induction false} ProceedOwes(n: Net, r: RingState, s: nat)
    requires ShapedFor(n, r) && Busy(n.nodes, r, s)
    ensures var r' := Proceed(n.nodes, r, s);
            ShapedFor(n, r') && Owed(n, r') == Owed(n, r) && DrainOf(n.nodes, r') == DrainOf(n.nodes, r)
  {
    ProceedKeepsDrain(n.nodes, r, s);
  }

  lemma {:induction false} ReceiveOwes(n: Net, r: RingState)
    requires ShapedFor(n, r) && Replies(r) != []
    ensures Owed(n, r) != [] && Tokens(n.model, Replies(r)[0]) == Owed(n, r)[0]
    ensures ShapedFor(n, Receive(r)) && Owed(n, Receive(r)) == Owed(n, r)[1..]
    ensures DrainOf(n.nodes, Receive(r)).0 == DrainOf(n.nodes, r).0
  {
    ReceiveDrains(n.nodes, r);
  }

  function StepOf(spec: Node): Step<NodeState, Msg> {
    (s: NodeState, msg: Msg) => if |s.bufs| == |spec.ls| then Serve(spec, s, msg) else (s, msg)
  }

  /** Every model with at least one stage has a faithful net. */
  function NetOf(m: Model, zero: Row, maxlen: nat): Net {
    Net(m, Next(m), zero, maxlen,
        seq(|m.stages|, i requires 0 <= i < |m.stages| => StepOf(NodeAt(m.stages, zero, maxlen, i))))
  }

  lemma {:induction false} NetOfFaithful(m: Model, zero: Row, maxlen: nat)
    requires m.stages != []
    ensures var n := NetOf(m, zero, maxlen); Faithful(n) && n.model == m && n.maxlen == maxlen
  {
    hide Serve;
    NextComputes(m);
  }
}
