/** Tree rounds over the ring of fixed-buffer nodes; with one message on it, a traversal is a pass. */
module TreeRound {
  import opened Decode
  import opened Indices
  import opened TargetModel
  import opened KvCache
  import opened Masks
  import opened Ring
  import opened FastVerify
  import opened ServeRing
  import opened StopRule
  import opened Tree
  import opened TreeVerify
  import opened TreeBlocks
  import opened TreeAccept

  /** The compaction a tree message carries for the round before it. */
  datatype Gather = NoGather | GatherPath(start: nat, keep: seq<nat>)

  datatype TreeMsg = TreeMsg(start: nat, rows: seq<Row>, par: seq<int>, dep: seq<int>, gather: Gather)

  /** A node's rows, or a link torn down by a message it refused. */
  datatype TreeReply = TreeReply(rows: seq<Row>) | Torn

  predicate CanGather(maxlen: nat, g: Gather) {
    g.GatherPath? ==> Gatherable(maxlen, g.start, g.keep)
  }

  function Gathered(caches: Caches, g: Gather): (c: Caches)
    ensures |c| == |caches|
  {
    match g
    case NoGather => caches
    case GatherPath(start, keep) => CompactAll(caches, start, keep)
  }

  /** The serving loop on one tree message: compact first, then verify. */
  function TreeServe(node: Node, s: NodeState, m: TreeMsg): (r: (NodeState, TreeReply)) {
    if !Sized(node.ls, node.maxlen, s) || !CanGather(node.maxlen, m.gather) then (s, Torn)
    else
      var bufs := Gathered(s.bufs, m.gather);
      if !Forest(|m.rows|, m.par, m.dep) || m.start + |m.rows| > node.maxlen then (s.(bufs := bufs), Torn)
      else
        var r := TreeBlock(node.ls, bufs, m.rows, m.start, TreeOf(|m.rows|, m.par, m.dep));
        (s.(bufs := r.0), TreeReply(r.1))
  }

  function TreeOf(n: nat, par: seq<int>, dep: seq<int>): (t: Topology)
    requires Forest(n, par, dep)
    ensures Size(t) == n && t.par == par && t.dep == dep
  {
    Shape(par, dep)
  }

  /** A serving node on one tree message, in place. */
  method HandleTree(node: ServeNode, m: TreeMsg) returns (reply: TreeReply)
    requires node.Valid()
    modifies node.fv.bufs
    ensures node.Valid() && (node.State(), reply) == TreeServe(node.Spec(), old(node.State()), m)
  {
    hide TreeBlock, Forest, Gatherable, CompactAll, Room;
    ghost var was := node.State();
    assert Sized(node.Spec().ls, node.Spec().maxlen, was);
    if m.gather.GatherPath? {
      var g := m.gather;
      if !(g.start + |g.keep| <= node.fv.maxlen && forall k :: 0 <= k < |g.keep| ==>
                                                                 g.start + g.keep[k] < node.fv.maxlen) {
        GatherRefused(node.fv.maxlen, g.start, g.keep);
        return Torn;
      }
      GatherTaken(node.fv.maxlen, g.start, g.keep);
      node.fv.TreeGather(g.start, g.keep);
    }
    var res := node.fv.TreeDecode(m.rows, m.start, m.par, m.dep);
    match res
    case TreeRows(rows) => return TreeReply(rows);
    case TreeOverflow => return Torn;
    case MalformedTree => return Torn;
  }

  lemma {:induction false} GatherRefused(n: nat, start: nat, keep: seq<nat>)
    requires !(start + |keep| <= n && forall k :: 0 <= k < |keep| ==> start + keep[k] < n)
    ensures !Gatherable(n, start, keep)
  {
  }

  lemma {:induction false} GatherTaken(n: nat, start: nat, keep: seq<nat>)
    requires start + |keep| <= n && forall k :: 0 <= k < |keep| ==> start + keep[k] < n
    ensures Gatherable(n, start, keep)
  {
  }

  // ----- the whole ring -----

  /** One tree message carried through every node; a refusal stops it where it is. */
  function TreePass(stages: seq<seq<Layer>>, zero: Row, maxlen: nat, states: seq<NodeState>, m: TreeMsg)
    : (r: (seq<NodeState>, TreeReply))
    requires |states| == |stages|
    ensures |r.0| == |stages|
    decreases |stages|
  {
    if stages == [] then ([], TreeReply(m.rows))
    else
      var (s, back) := TreeServe(NodeAt(stages, zero, maxlen, 0), states[0], m);
      match back
      case Torn => ([s] + states[1..], Torn)
      case TreeReply(rows) =>
        var rest := TreePass(stages[1..], zero, maxlen, states[1..], m.(rows := rows));
        ([s] + rest.0, rest.1)
  }

  function AllGathered(states: seq<NodeState>, g: Gather): (r: seq<NodeState>)
    ensures |r| == |states|
    ensures forall k :: 0 <= k < |r| ==> r[k] == states[k].(bufs := Gathered(states[k].bufs, g))
  {
    seq(|states|, k requires 0 <= k < |states| => states[k].(bufs := Gathered(states[k].bufs, g)))
  }

  /** Once the pending compaction is done, every node's buffers hold `xs`. */
  predicate WillSettle(stages: seq<seq<Layer>>, maxlen: nat, states: seq<NodeState>, g: Gather, xs: seq<Row>,
                       first: bool) {
    |states| == |stages| && CanGather(maxlen, g) && HoldsAll(stages, maxlen, AllGathered(states, g), xs, first)
  }

  lemma {:induction false} TreeServeExact(node: Node, s: NodeState, g: Gather, pre: seq<Row>, xs: seq<Row>, t: Topology,
                                          i: nat, first: bool)
    requires |xs| == Size(t) && i < Size(t) && |pre| + |xs| <= node.maxlen && CanGather(node.maxlen, g)
    requires NodeHolds(node.ls, node.maxlen, s.(bufs := Gathered(s.bufs, g)), pre, first)
    ensures var (s', r) := TreeServe(node, s, TreeMsg(|pre|, xs, t.par, t.dep, g));
            var text := Text(pre, xs, t, i);
            r.TreeReply? && |r.rows| == |xs| &&
            BlockRows(node.ls, text) == Text(BlockRows(node.ls, pre), r.rows, t, i) &&
            NodeHolds(node.ls, node.maxlen, s'.(bufs := Gathered(s'.bufs, GatherPath(|pre|, Chain(t, i)))), text, first)
  {
    hide Forest, Holds, BlockRows, TreeBlock, Text, Chain, Compact, Gatherable;
    SizedUngathered(node.ls, node.maxlen, s, g);
    var bufs := Gathered(s.bufs, g);
    TreeBlockExact(node.ls, bufs, pre, xs, t, i);
    TreeBlockKeepsRoom(node.ls, bufs, xs, |pre|, t);
  }

  lemma {:induction false} SizedUngathered(ls: seq<Layer>, maxlen: nat, s: NodeState, g: Gather)
    requires Sized(ls, maxlen, s.(bufs := Gathered(s.bufs, g)))
    ensures Sized(ls, maxlen, s)
  {
    if g.GatherPath? {
      forall k | 0 <= k < |ls| ensures |s.bufs[k]| == maxlen {
        assert |Gathered(s.bufs, g)[k]| == maxlen;
      }
    }
  }

  /** One traversal gives every node of the tree the row recomputing its own text gives, and leaves
      buffers that any chain's compaction turns into that chain's text. */
  lemma {:induction false} TreePassExact(stages: seq<seq<Layer>>, zero: Row, maxlen: nat, states: seq<NodeState>,
                                         g: Gather, pre: seq<Row>, xs: seq<Row>, t: Topology, i: nat, first: bool)
    requires |xs| == Size(t) && i < Size(t) && |pre| + |xs| <= maxlen
    requires WillSettle(stages, maxlen, states, g, pre, first)
    ensures var (states', r) := TreePass(stages, zero, maxlen, states, TreeMsg(|pre|, xs, t.par, t.dep, g));
            var text := Text(pre, xs, t, i);
            r.TreeReply? && |r.rows| == |xs| && StackRows(stages, text) == Text(StackRows(stages, pre), r.rows, t, i) &&
            WillSettle(stages, maxlen, states', GatherPath(|pre|, Chain(t, i)), text, first)
    decreases |stages|
  {
    hide Forest, BlockRows, TreeServe, NodeHolds, Text, Chain, Gatherable;
    ChainGathers(t, i, |pre|, maxlen);
    if stages != [] {
      var m, node := TreeMsg(|pre|, xs, t.par, t.dep, g), NodeAt(stages, zero, maxlen, 0);
      SettleHead(stages, maxlen, states, g, pre, first);
      TreeServeExact(node, states[0], g, pre, xs, t, i, first);
      var (s, back) := TreeServe(node, states[0], m);
      TreePassExact(stages[1..], zero, maxlen, states[1..], g, BlockRows(stages[0], pre), back.rows, t, i, first);
      var rest := TreePass(stages[1..], zero, maxlen, states[1..], m.(rows := back.rows));
      SettleCons(stages, maxlen, s, rest.0, GatherPath(|pre|, Chain(t, i)), Text(pre, xs, t, i), first);
    }
  }

  lemma {:induction false} ChainGathers(t: Topology, i: nat, start: nat, maxlen: nat)
    requires i < Size(t) && start + Size(t) <= maxlen
    ensures Gatherable(maxlen, start, Chain(t, i))
  {
    hide Forest;
    ChainFits(t, i);
  }

  lemma {:induction false} SettleHead(stages: seq<seq<Layer>>, maxlen: nat, states: seq<NodeState>, g: Gather,
                                      xs: seq<Row>, first: bool)
    requires stages != [] && WillSettle(stages, maxlen, states, g, xs, first)
    ensures NodeHolds(stages[0], maxlen, states[0].(bufs := Gathered(states[0].bufs, g)), xs, first)
    ensures WillSettle(stages[1..], maxlen, states[1..], g, BlockRows(stages[0], xs), first)
  {
    hide NodeHolds, BlockRows, Gatherable, Gathered;
    assert AllGathered(states, g)[1..] == AllGathered(states[1..], g);
  }

  lemma {:induction false} SettleCons(stages: seq<seq<Layer>>, maxlen: nat, s: NodeState, rest: seq<NodeState>,
                                      g: Gather, xs: seq<Row>, first: bool)
    requires stages != [] && NodeHolds(stages[0], maxlen, s.(bufs := Gathered(s.bufs, g)), xs, first)
    requires WillSettle(stages[1..], maxlen, rest, g, BlockRows(stages[0], xs), first)
    ensures WillSettle(stages, maxlen, [s] + rest, g, xs, first)
  {
    hide NodeHolds, BlockRows, Gatherable, Gathered;
    assert AllGathered([s] + rest, g)[1..] == AllGathered(rest, g);
  }

  /** The tail's verdict at every node. */
  function TreeTokens(m: Model, rows: seq<Row>): (r: seq<Token>)
    ensures |r| == |rows| && forall j :: 0 <= j < |r| ==> r[j] == m.head(rows[j])
  {
    seq(|rows|, j requires 0 <= j < |rows| => m.head(rows[j]))
  }

  /** A tree round on top of a committed text: every verdict is the target's next token after the
      prefix and that node's own chain; any accepted chain, once compacted, is the new prefix. */
  lemma {:induction false} TreeRoundExact(n: Net, states: seq<NodeState>, g: Gather, pre: seq<Token>, tok: seq<Token>,
                                          t: Topology, i: nat, first: bool)
    requires Faithful(n) && |tok| == Size(t) && i < Size(t) && |pre| + |tok| <= n.maxlen
    requires WillSettle(n.model.stages, n.maxlen, states, g, Embed(n.model, pre), first)
    ensures var (states', r) := TreePass(n.model.stages, n.zero, n.maxlen, states,
                                         TreeMsg(|pre|, Embed(n.model, tok), t.par, t.dep, g));
            r.TreeReply? && |r.rows| == |tok| && TreeTokens(n.model, r.rows)[i] == n.next(Text(pre, tok, t, i)) &&
            WillSettle(n.model.stages, n.maxlen, states', GatherPath(|pre|, Chain(t, i)),
                       Embed(n.model, Text(pre, tok, t, i)), first)
  {
    hide WillSettle, Forest, TreePass, Size;
    SettleShape(n.model.stages, n.maxlen, states, g, Embed(n.model, pre), first);
    var m, text := n.model, Text(pre, tok, t, i);
    TreePassExact(m.stages, n.zero, n.maxlen, states, g, Embed(m, pre), Embed(m, tok), t, i, first);
    EmbedText(m, pre, tok, t, i);
    var r := TreePass(m.stages, n.zero, n.maxlen, states, TreeMsg(|pre|, Embed(m, tok), t.par, t.dep, g)).1;
    TextLast(StackRows(m.stages, Embed(m, pre)), r.rows, t, i);
    assert n.next(text) == m.head(StackRows(m.stages, Embed(m, text))[|text| - 1]);
  }

  lemma {:induction false} SettleShape(stages: seq<seq<Layer>>, maxlen: nat, states: seq<NodeState>, g: Gather,
                                       xs: seq<Row>, first: bool)
    requires WillSettle(stages, maxlen, states, g, xs, first)
    ensures |states| == |stages|
  {
  }

  lemma {:induction false} EmbedText(m: Model, pre: seq<Token>, tok: seq<Token>, t: Topology, i: nat)
    requires |tok| == Size(t) && i < Size(t)
    ensures Text(Embed(m, pre), Embed(m, tok), t, i) == Embed(m, Text(pre, tok, t, i))
  {
    hide Forest, Size, Depth, Chain;
    var c := Chain(t, i);
    assert Picked(Embed(m, tok), c) == Embed(m, Picked(tok, c));
    assert Embed(m, pre) + Embed(m, Picked(tok, c)) == Embed(m, pre + Picked(tok, c));
  }

  lemma {:induction false} TextLast(pre: seq<Row>, xs: seq<Row>, t: Topology, i: nat)
    requires |xs| == Size(t) && i < Size(t)
    ensures Text(pre, xs, t, i)[|pre| + Depth(t, i)] == xs[i]
  {
    hide Forest, Size, Depth, Chain;
  }
}
