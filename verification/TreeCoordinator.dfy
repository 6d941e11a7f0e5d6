/** The tree coordinator: one drafted tree per round, verified in one traversal, greedily walked. */
module TreeCoordinator {
  import opened Decode
  import opened TargetModel
  import opened Ring
  import opened ServeRing
  import opened StopRule
  import opened Tree
  import opened TreeAccept
  import opened TreeRound

  datatype DraftTree = DraftTree(tok: seq<Token>, par: seq<int>, dep: seq<int>)

  /** What the draft service promises: node 0 is a root and carries the text's last token. Nothing is
      promised of the rest of the tree. */
  predicate Rooted(d: DraftTree, text: seq<Token>) {
    d.tok != [] && d.par != [] && d.par[0] == -1 && text != [] && d.tok[0] == text[|text| - 1]
  }

  datatype Outcome = Done(out: seq<Token>) | EdgeFailed

  /** The ring's nodes between messages, and the compaction still to be sent. */
  datatype Vars = Vars(states: seq<NodeState>, out: seq<Token>, pos: nat, gather: Gather, done: bool)

  ghost predicate RoundInv(n: Net, prompt: seq<Token>, eos: Token, v: Vars) {
    && prompt != [] && v.out != [] && v.out == Greedy(n.next, prompt, |v.out|) && v.pos + 1 == |prompt| + |v.out|
    && WillSettle(n.model.stages, n.maxlen, v.states, v.gather, Embed(n.model, prompt + v.out[..|v.out| - 1]), false)
    && (v.done ==> eos in v.out)
  }

  /** Reset, then the whole prompt in one message. */
  method Prefill(n: Net, states0: seq<NodeState>, prompt: seq<Token>, ghost eos: Token) returns (ok: bool, v: Vars)
    requires Faithful(n) && |n.nodes| == |n.model.stages| && SizedFor(n.model.stages, n.maxlen, states0) && prompt != []
    ensures ok <==> |prompt| <= n.maxlen
    ensures ok ==> RoundInv(n, prompt, eos, v) && |v.out| == 1 && !v.done
  {
    hide Serves, WillSettle, HoldsAll, Pass;
    PassReset(n.model.stages, n.zero, n.maxlen, n.nodes, states0);
    var states := Pass(n.nodes, states0, Reset).0;
    v := Vars(states, [], 0, NoGather, false);
    if |prompt| > n.maxlen {
      return false, v;
    }
    assert prompt[..0] == [] && prompt[0..] == prompt && Embed(n.model, []) == [];
    PassVerdicts(n, states, prompt, 0, true, false);
    var (states', reply) := Pass(n.nodes, states, ChunkMsg(n.model, 0, prompt, false));
    var r := Tokens(n.model, reply);
    var cur := r[|r| - 1];
    v := Vars(states', [cur], |prompt|, NoGather, false);
    SettledAlready(n.model.stages, n.maxlen, states', Embed(n.model, prompt), false);
    assert [cur][..0] == [] && prompt + [] + [] == prompt && [] + [cur] == [cur];
    assert prompt[..0 + (|prompt| - 1) + 1] == prompt;
    GreedyExtends(n.next, prompt, [], [cur]);
    return true, v;
  }

  lemma {:induction false} SettledAlready(stages: seq<seq<Layer>>, maxlen: nat, states: seq<NodeState>, xs: seq<Row>,
                                          first: bool)
    requires |states| == |stages| && HoldsAll(stages, maxlen, states, xs, first)
    ensures WillSettle(stages, maxlen, states, NoGather, xs, first)
  {
    assert AllGathered(states, NoGather) == states;
  }

  /** One tree: draft, verify, walk, commit. */
  method Round(n: Net, prompt: seq<Token>, eos: Token, d: DraftTree, v0: Vars)
    returns (ok: bool, v: Vars, ghost targ: seq<Token>, ghost kept: seq<nat>)
    requires Faithful(n) && RoundInv(n, prompt, eos, v0) && Rooted(d, prompt + v0.out)
    ensures ok <==> Forest(|d.tok|, d.par, d.dep) && v0.pos + |d.tok| <= n.maxlen
    ensures ok ==> RoundInv(n, prompt, eos, v) && v0.out < v.out && |v.out| <= |v0.out| + |d.tok|
    ensures ok ==> Walks(n.next, prompt, d, v0.out, targ, v.out[|v0.out|..], kept)
    ensures ok ==> (v.done <==> eos in v.out[|v0.out|..])
  {
    hide Faithful, Computes, WillSettle, TreePass, Forest, Greedy, TruthfulTree, Accepted, Firsts, ListsChildren;
    v, targ, kept := v0, [], [];
    if !Forest(|d.tok|, d.par, d.dep) || v.pos + |d.tok| > n.maxlen {
      return false, v, targ, kept;
    }
    var t, m := TreeOf(|d.tok|, d.par, d.dep), n.model;
    var children := Children(t);
    ghost var pre := prompt + v.out[..|v.out| - 1];
    assert |pre| == v.pos;
    SettleShape(m.stages, n.maxlen, v.states, v.gather, Embed(m, pre), false);
    TreeRoundExact(n, v.states, v.gather, pre, d.tok, t, 0, false);
    RoundTruthful(n, v.states, v.gather, pre, d.tok, t);
    var msg := TreeMsg(v.pos, Embed(m, d.tok), d.par, d.dep, v.gather);
    var (states', reply) := TreePass(m.stages, n.zero, n.maxlen, v.states, msg);
    var verdicts := TreeTokens(m, reply.rows);
    RootAbove(t);
    var committed, path := AcceptTree(d.tok, t, children, verdicts);
    RoundCommits(n, prompt, eos, v, d.tok, t, verdicts, committed, path, states');
    WalkFits(d.tok, t, verdicts, committed, path);
    v := Vars(states', v.out + committed, v.pos + |path|, GatherPath(v.pos, path), eos in committed);
    assert v.out[|v0.out|..] == committed;
    return true, v, verdicts, path;
  }

  /** Every node's verdict is the target's. */
  lemma {:induction false} RoundTruthful(n: Net, states: seq<NodeState>, g: Gather, pre: seq<Token>, tok: seq<Token>,
                                         t: Topology)
    requires Faithful(n) && tok != [] && |tok| == Size(t) && |pre| + |tok| <= n.maxlen && |states| == |n.model.stages|
    requires WillSettle(n.model.stages, n.maxlen, states, g, Embed(n.model, pre), false)
    ensures var r := TreePass(n.model.stages, n.zero, n.maxlen, states,
                              TreeMsg(|pre|, Embed(n.model, tok), t.par, t.dep, g));
            r.1.TreeReply? && |r.1.rows| == |tok| && TruthfulTree(n.next, pre, tok, t, TreeTokens(n.model, r.1.rows))
  {
    hide Faithful, WillSettle, TreePass, Forest, Text;
    var r := TreePass(n.model.stages, n.zero, n.maxlen, states, TreeMsg(|pre|, Embed(n.model, tok), t.par, t.dep, g));
    TreeRoundExact(n, states, g, pre, tok, t, 0, false);
    var targ := TreeTokens(n.model, r.1.rows);
    forall i | 0 <= i < Size(t) ensures targ[i] == n.next(Text(pre, tok, t, i)) {
      TreeRoundExact(n, states, g, pre, tok, t, i, false);
    }
  }

  /** What a round commits is the whole walk down the tree, by the target's verdicts on its nodes. */
  ghost predicate Walks(next: Target, prompt: seq<Token>, d: DraftTree, out: seq<Token>, targ: seq<Token>,
                        committed: seq<Token>, kept: seq<nat>) {
    out != [] && Forest(|d.tok|, d.par, d.dep) &&
    var t := TreeOf(|d.tok|, d.par, d.dep);
    |targ| == |d.tok| == Size(t) && TruthfulTree(next, prompt + out[..|out| - 1], d.tok, t, targ) &&
    Accepted(d.tok, t, targ, committed, kept) && Firsts(d.tok, t, targ, kept)
  }

  lemma {:induction false} WalkFits(tok: seq<Token>, t: Topology, targ: seq<Token>, committed: seq<Token>,
                                    kept: seq<nat>)
    requires |tok| == |targ| == Size(t) && Accepted(tok, t, targ, committed, kept)
    ensures |committed| == |kept| <= |tok|
  {
    hide Forest;
    PathFacts(t, kept);
  }

  lemma {:induction false} RootAbove(t: Topology)
    requires t.par[0] == -1
    ensures Above(t, 0) == -1
  {
    hide Forest;
  }

  lemma {:induction false} RoundCommits(n: Net, prompt: seq<Token>, eos: Token, v: Vars, tok: seq<Token>, t: Topology,
                                        targ: seq<Token>, committed: seq<Token>, kept: seq<nat>,
                                        states': seq<NodeState>)
    requires Faithful(n) && RoundInv(n, prompt, eos, v) && |tok| == |targ| == Size(t) && v.pos + |tok| <= n.maxlen
    requires tok[0] == v.out[|v.out| - 1] && |v.states| == |n.model.stages|
    requires states' == TreePass(n.model.stages, n.zero, n.maxlen, v.states,
                                 TreeMsg(v.pos, Embed(n.model, tok), t.par, t.dep, v.gather)).0
    requires TruthfulTree(n.next, prompt + v.out[..|v.out| - 1], tok, t, targ)
    requires Accepted(tok, t, targ, committed, kept)
    ensures committed != [] && |committed| == |kept|
    ensures RoundInv(n, prompt, eos, Vars(states', v.out + committed, v.pos + |kept|, GatherPath(v.pos, kept),
                                          eos in committed))
  {
    hide Faithful, Computes, WillSettle, TreePass, Forest, Greedy, Accepted, TruthfulTree, Size, Text;
    var pre, out := prompt + v.out[..|v.out| - 1], v.out + committed;
    AcceptedLength(tok, t, targ, committed, kept);
    AcceptedIsGreedy(n.next, prompt, v.out, tok, t, targ, committed, kept);
    var last := kept[|kept| - 1];
    LastKept(tok, t, targ, committed, kept);
    assert |pre| == v.pos;
    TreeRoundExact(n, v.states, v.gather, pre, tok, t, last, false);
    assert prompt + v.out + committed[..|committed| - 1] == prompt + out[..|out| - 1];
  }

  lemma {:induction false} LastKept(tok: seq<Token>, t: Topology, targ: seq<Token>, committed: seq<Token>,
                                    kept: seq<nat>)
    requires |tok| == |targ| == Size(t) && Accepted(tok, t, targ, committed, kept)
    ensures kept != [] && kept[|kept| - 1] < Size(t) && Chain(t, kept[|kept| - 1]) == kept
  {
  }

  /** Every drafted tree is a well-formed one of at most `most` nodes. */
  ghost predicate WellDrafted(draft: (nat, seq<Token>) -> DraftTree, most: nat) {
    forall i, text {:trigger draft(i, text)} ::
      var d := draft(i, text); Forest(|d.tok|, d.par, d.dep) && |d.tok| <= most
  }

  /** Every answer a finished run gives is the target's plain greedy decode; and a run finishes
      whenever the trees are well formed and there is room for them. */
  method CoordinateTreeFast(n: Net, states0: seq<NodeState>, prompt: seq<Token>, maxNew: nat, eos: Token,
                            draft: (nat, seq<Token>) -> DraftTree, ghost most: nat)
    returns (res: Outcome, ghost out: seq<Token>, ghost before: nat)
    requires Faithful(n) && |n.nodes| == |n.model.stages| && SizedFor(n.model.stages, n.maxlen, states0) && prompt != []
    requires forall i, text :: text != [] ==> Rooted(draft(i, text), text)
    ensures res.Done? ==> CutCap(res.out, {eos}, maxNew) == Answer(n.next, prompt, {eos}, maxNew) && eos !in res.out
    ensures res.Done? ==> res.out == UpToEos(out, {eos}) && out == Greedy(n.next, prompt, |out|) &&
                          StopsBy(maxNew, eos, out, before)
    ensures res.Done? && WellDrafted(draft, most) ==> |out| - before <= Max(1, most)
    ensures |prompt| + maxNew + most <= n.maxlen && WellDrafted(draft, most) ==> res.Done?
  {
    hide Faithful, Greedy, RoundInv, Forest, CutCap, Answer, UpToEos, Walks;
    out, before := [], 0;
    var ok, v := Prefill(n, states0, prompt, eos);
    if !ok { return EdgeFailed, out, before; }
    var rounds := 0;
    while |v.out| < maxNew && v.out[|v.out| - 1] != eos && !v.done
      invariant RoundInv(n, prompt, eos, v) && v.out != []
      invariant if |v.out| == 1 then before == 0 && !v.done
                else 1 <= before < |v.out| && before < maxNew && eos !in v.out[..before] && (v.done <==> eos in v.out)
      invariant WellDrafted(draft, most) ==> |v.out| - before <= Max(1, most)
      decreases maxNew - |v.out|
    {
      RoundFacts(n, prompt, eos, v);
      var text := prompt + v.out;
      var d := draft(rounds, text);
      assert Rooted(d, text);
      ghost var was := v.out;
      ghost var targ, kept;
      ok, v, targ, kept := Round(n, prompt, eos, d, v);
      if !ok { return EdgeFailed, out, before; }
      before := |was|;
      assert v.out == was + v.out[|was|..] && v.out[..|was|] == was;
      rounds := rounds + 1;
    }
    RoundFacts(n, prompt, eos, v);
    assert maxNew <= |v.out| || exists i :: 0 <= i < |v.out| && v.out[i] in {eos};
    StoppedRunAnswers(n.next, prompt, v.out, {eos}, maxNew);
    CutAgain(v.out, {eos}, maxNew);
    out := v.out;
    return Done(UpToEos(v.out, {eos})), out, before;
  }

  /** A run ends with its first token, or with the first round that brings it to the cap or to an end token. */
  predicate StopsBy(maxNew: nat, eos: Token, out: seq<Token>, before: nat) {
    out != [] && (maxNew <= |out| || eos in out) &&
    (|out| == 1 || (1 <= before < |out| && before < maxNew && eos !in out[..before]))
  }

  lemma {:induction false} RoundFacts(n: Net, prompt: seq<Token>, eos: Token, v: Vars)
    requires RoundInv(n, prompt, eos, v)
    ensures v.out != [] && v.out == Greedy(n.next, prompt, |v.out|) && v.pos + 1 == |prompt| + |v.out|
    ensures v.done ==> eos in v.out
  {
  }
}
