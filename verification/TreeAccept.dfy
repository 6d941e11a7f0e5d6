/** Walking a verified tree: follow the target's own tokens down from the root, commit them, and
    stop at the first one no child carries. */
module TreeAccept {
  import opened Decode
  import opened Indices
  import opened Masks
  import opened Tree
  import opened TreeBlocks

  /** c is a child of `node` (a root when `node` is -1) that carries the token `want`. */
  predicate Carries(tok: seq<Token>, t: Topology, node: int, want: Token, c: nat)
    requires |tok| == Size(t)
  {
    c < Size(t) && Above(t, c) == node && tok[c] == want
  }

  /** The nodes kept are a path down from node 0, each carrying what the target wanted at the one
      before; the tokens committed are what the target wanted along it; no child carries the last. */
  ghost predicate Accepted(tok: seq<Token>, t: Topology, targ: seq<Token>, committed: seq<Token>, kept: seq<nat>)
    requires |tok| == |targ| == Size(t)
  {
    && PathTo(t, kept) && kept != [] && kept[0] == 0 && Within(kept, Size(t))
    && committed == Picked(targ, kept) && Picked(tok, kept[1..]) == committed[..|kept| - 1]
    && Barren(tok, t, kept[|kept| - 1], committed[|kept| - 1])
  }

  /** Of several children that carry the wanted token the first is kept. */
  predicate Firsts(tok: seq<Token>, t: Topology, targ: seq<Token>, kept: seq<nat>)
    requires |tok| == |targ| == Size(t)
  {
    forall k :: 0 <= k < |kept| - 1 ==> FirstAt(tok, t, targ, kept, k)
  }

  predicate FirstAt(tok: seq<Token>, t: Topology, targ: seq<Token>, kept: seq<nat>, k: nat)
    requires |tok| == |targ| == Size(t) && k + 1 < |kept|
  {
    kept[k] < |targ| && NoneBefore(tok, t, kept[k], targ[kept[k]], kept[k + 1])
  }

  predicate NoneBefore(tok: seq<Token>, t: Topology, node: int, want: Token, c: nat)
    requires |tok| == Size(t)
  {
    forall d: nat :: d < c ==> !Carries(tok, t, node, want, d)
  }

  lemma {:induction false} FirstsMore(tok: seq<Token>, t: Topology, targ: seq<Token>, kept: seq<nat>, c: nat)
    requires |tok| == |targ| == Size(t) && kept != [] && kept[|kept| - 1] < |targ| && Firsts(tok, t, targ, kept)
    requires NoneBefore(tok, t, kept[|kept| - 1], targ[kept[|kept| - 1]], c)
    ensures Firsts(tok, t, targ, kept + [c])
  {
    hide NoneBefore, Size;
    forall k | 0 <= k < |kept| ensures FirstAt(tok, t, targ, kept + [c], k) {
      assert k < |kept| - 1 ==> FirstAt(tok, t, targ, kept, k);
    }
  }

  /** No child of the node carries the token. */
  ghost predicate Barren(tok: seq<Token>, t: Topology, node: int, want: Token)
    requires |tok| == Size(t)
  {
    forall c: nat :: !Carries(tok, t, node, want, c)
  }

  predicate PathTo(t: Topology, kept: seq<nat>) {
    kept != [] && kept[|kept| - 1] < Size(t) && kept == Chain(t, kept[|kept| - 1])
  }

  lemma {:induction false} PathFacts(t: Topology, kept: seq<nat>)
    requires PathTo(t, kept)
    ensures kept != [] && |kept| <= Size(t) && Within(kept, Size(t))
  {
    hide Forest, Chain, Depth, Size;
    ChainFits(t, kept[|kept| - 1]);
  }

  lemma {:induction false} PathRoot(t: Topology, c: nat)
    requires c < Size(t) && Above(t, c) == -1
    ensures PathTo(t, [c])
  {
    hide Forest, Depth, Size;
  }

  lemma {:induction false} PathGrows(t: Topology, kept: seq<nat>, c: nat)
    requires PathTo(t, kept) && ChildOf(t, kept[|kept| - 1], c)
    ensures PathTo(t, kept + [c])
  {
    hide Forest, Depth, Size;
    ChainStep(t, c);
  }

  lemma {:induction false} PathPrefix(t: Topology, kept: seq<nat>, k: nat)
    requires PathTo(t, kept) && k < |kept|
    ensures kept[k] < Size(t) && Chain(t, kept[k]) == kept[..k + 1]
  {
    hide Forest, Chain, Depth, Size;
    ChainPrefix(t, kept[|kept| - 1], k);
  }

  ghost predicate ListsChildren(t: Topology, children: seq<seq<nat>>) {
    |children| == Size(t) &&
    (forall p :: 0 <= p < Size(t) ==> forall c: nat :: c in children[p] <==> ChildOf(t, p, c)) &&
    forall p :: 0 <= p < Size(t) ==> Rising(children[p])
  }

  predicate Rising(cs: seq<nat>) {
    forall a, b :: 0 <= a < b < |cs| ==> cs[a] < cs[b]
  }

  predicate ChildOf(t: Topology, p: nat, c: nat) {
    c < Size(t) && Above(t, c) == p
  }

  method Children(t: Topology) returns (children: seq<seq<nat>>)
    ensures ListsChildren(t, children)
  {
    hide Forest;
    children := seq(Size(t), i => []);
    for i := 0 to Size(t)
      invariant |children| == Size(t)
      invariant forall p :: 0 <= p < Size(t) ==> forall c: nat :: c in children[p] <==> c < i && ChildOf(t, p, c)
      invariant forall p :: 0 <= p < Size(t) ==> Rising(children[p])
    {
      var p := Above(t, i);
      if p != -1 {
        RisingMore(children[p], i);
        children := children[p := children[p] + [i]];
      }
    }
  }

  lemma {:induction false} RisingMore(cs: seq<nat>, c: nat)
    requires Rising(cs) && forall d :: d in cs ==> d < c
    ensures Rising(cs + [c])
  {
    assert forall a :: 0 <= a < |cs| ==> cs[a] in cs;
  }

  /** The coordinator's walk. */
  method AcceptTree(tok: seq<Token>, t: Topology, children: seq<seq<nat>>, targ: seq<Token>)
    returns (committed: seq<Token>, kept: seq<nat>)
    requires |tok| == |targ| == Size(t) && ListsChildren(t, children) && Above(t, 0) == -1
    ensures Accepted(tok, t, targ, committed, kept) && Firsts(tok, t, targ, kept)
  {
    hide Forest, PathTo, Size;
    committed, kept := [], [0];
    var node: nat := 0;
    PathRoot(t, 0);
    PathFacts(t, kept);
    while true
      invariant PathTo(t, kept) && kept != [] && kept[0] == 0 && node == kept[|kept| - 1] < Size(t)
      invariant |committed| + 1 == |kept| <= Size(t) && Within(kept, Size(t))
      invariant committed == Picked(targ, kept[..|committed|]) == Picked(tok, kept[1..]) && Firsts(tok, t, targ, kept)
      decreases Size(t) - |kept|
    {
      var want := targ[node];
      var found, nxt := FindChild(tok, t, children[node], node, want);
      committed := committed + [want];
      assert kept[..|kept|] == kept[..|kept| - 1] + [node];
      if !found {
        assert committed[..|kept| - 1] == Picked(tok, kept[1..]);
        break;
      }
      assert (kept + [nxt])[1..] == kept[1..] + [nxt] && (kept + [nxt])[..|kept|] == kept;
      PathGrows(t, kept, nxt);
      FirstsMore(tok, t, targ, kept, nxt);
      kept := kept + [nxt];
      PathFacts(t, kept);
      node := nxt;
    }
  }

  /** The first listed child that carries the wanted token. */
  method FindChild(tok: seq<Token>, t: Topology, cs: seq<nat>, ghost node: nat, want: Token)
    returns (found: bool, c: nat)
    requires |tok| == Size(t) && Rising(cs) && forall c: nat :: c in cs <==> ChildOf(t, node, c)
    ensures found ==> Carries(tok, t, node, want, c) && NoneBefore(tok, t, node, want, c)
    ensures !found ==> Barren(tok, t, node, want)
  {
    hide Forest;
    for i := 0 to |cs|
      invariant forall k :: 0 <= k < i ==> ChildOf(t, node, cs[k]) && tok[cs[k]] != want
    {
      assert ChildOf(t, node, cs[i]);
      if tok[cs[i]] == want {
        forall d: nat | d < cs[i] ensures !Carries(tok, t, node, want, d) {
          assert d in cs <==> ChildOf(t, node, d);
        }
        return true, cs[i];
      }
    }
    forall d: nat ensures !Carries(tok, t, node, want, d) {
      assert d in cs <==> ChildOf(t, node, d);
    }
    return false, 0;
  }

  // ----- what the walk commits -----

  /** Every node's verdict is the target's next token after that node's text. */
  ghost predicate TruthfulTree(next: Target, pre: seq<Token>, tok: seq<Token>, t: Topology, targ: seq<Token>)
    requires |tok| == |targ| == Size(t)
  {
    forall i :: 0 <= i < Size(t) ==> targ[i] == next(Text(pre, tok, t, i))
  }

  lemma {:induction false} KeptText(pre: seq<Token>, tok: seq<Token>, t: Topology, targ: seq<Token>,
                                    committed: seq<Token>, kept: seq<nat>, j: nat)
    requires |tok| == |targ| == Size(t) && Accepted(tok, t, targ, committed, kept) && j < |kept|
    ensures Text(pre, tok, t, kept[j]) == pre + [tok[0]] + committed[..j]
  {
    hide Forest, Size, Depth, Chain, Barren, PathTo;
    PathPrefix(t, kept, j);
    PathTokens(tok, kept, committed, j);
    assert pre + ([tok[0]] + committed[..j]) == pre + [tok[0]] + committed[..j];
  }

  lemma {:induction false} PathTokens(tok: seq<Token>, kept: seq<nat>, committed: seq<Token>, j: nat)
    requires |kept| == |committed| && j < |kept| && kept[0] == 0 && Within(kept, |tok|)
    requires Picked(tok, kept[1..]) == committed[..|kept| - 1]
    ensures Picked(tok, kept[..j + 1]) == [tok[0]] + committed[..j]
  {
    assert kept[..j + 1] == [0] + kept[1..][..j];
    assert Picked(tok, kept[1..][..j]) == Picked(tok, kept[1..])[..j];
  }

  /** A tree rooted at the last committed token commits exactly the next |kept| greedy tokens. */
  lemma {:induction false} AcceptedIsGreedy(next: Target, ids: seq<Token>, out: seq<Token>, tok: seq<Token>,
                                            t: Topology, targ: seq<Token>, committed: seq<Token>, kept: seq<nat>)
    requires ids != [] && out != [] && out == Greedy(next, ids, |out|)
    requires |tok| == |targ| == Size(t) && tok[0] == out[|out| - 1]
    requires TruthfulTree(next, ids + out[..|out| - 1], tok, t, targ)
    requires Accepted(tok, t, targ, committed, kept)
    ensures out + committed == Greedy(next, ids, |out| + |kept|)
    ensures forall j :: 0 <= j < |kept| ==> Text(ids + out[..|out| - 1], tok, t, kept[j]) == ids + out + committed[..j]
  {
    hide Forest, Accepted, Size, Text, Greedy;
    var pre := ids + out[..|out| - 1];
    AcceptedLength(tok, t, targ, committed, kept);
    assert pre + [tok[0]] == ids + out;
    forall j | 0 <= j < |kept|
      ensures Text(pre, tok, t, kept[j]) == ids + out + committed[..j]
      ensures committed[j] == next(ids + out + committed[..j])
    {
      KeptText(pre, tok, t, targ, committed, kept, j);
      AcceptedFacts(tok, t, targ, committed, kept, j);
    }
    GreedyExtends(next, ids, out, committed);
  }

  lemma {:induction false} AcceptedFacts(tok: seq<Token>, t: Topology, targ: seq<Token>, committed: seq<Token>,
                                         kept: seq<nat>, j: nat)
    requires |tok| == |targ| == Size(t) && Accepted(tok, t, targ, committed, kept) && j < |kept|
    ensures |committed| == |kept| && kept[j] < Size(t) && committed[j] == targ[kept[j]]
  {
  }

  lemma {:induction false} AcceptedLength(tok: seq<Token>, t: Topology, targ: seq<Token>, committed: seq<Token>,
                                          kept: seq<nat>)
    requires |tok| == |targ| == Size(t) && Accepted(tok, t, targ, committed, kept)
    ensures |committed| == |kept| >= 1 && Within(kept, Size(t))
  {
  }

  /** Siblings carry different tokens. */
  ghost predicate DistinctSiblings(tok: seq<Token>, t: Topology)
    requires |tok| == Size(t)
  {
    forall c, d :: 0 <= c < Size(t) && 0 <= d < Size(t) && Above(t, c) == Above(t, d) && tok[c] == tok[d] ==> c == d
  }

  /** Every step of the way from node 0 down to i is what the target wanted there. */
  ghost predicate Matches(tok: seq<Token>, t: Topology, targ: seq<Token>, i: nat)
    requires |tok| == |targ| == Size(t) && i < Size(t)
  {
    var c := Chain(t, i);
    c[0] == 0 && forall k :: 1 <= k < |c| ==> tok[c[k]] == targ[c[k - 1]]
  }

  /** With distinct siblings the walk misses nothing: the nodes it keeps are exactly those the target
      agrees with all the way, so the path is the longest the tree contains. */
  lemma {:induction false} AcceptedIsLongest(tok: seq<Token>, t: Topology, targ: seq<Token>, committed: seq<Token>,
                                             kept: seq<nat>, i: nat)
    requires |tok| == |targ| == Size(t) && i < Size(t) && DistinctSiblings(tok, t)
    requires Accepted(tok, t, targ, committed, kept)
    ensures i in kept <==> Matches(tok, t, targ, i)
    ensures i in kept ==> Chain(t, i) <= kept
    decreases Depth(t, i)
  {
    hide Forest, Size, Depth, Chain;
    if i in kept {
      KeptMatches(tok, t, targ, committed, kept, i);
    }
    if Matches(tok, t, targ, i) {
      var p := Above(t, i);
      ChainStep(t, i);
      if p != -1 {
        MatchesAbove(tok, t, targ, i);
        AcceptedIsLongest(tok, t, targ, committed, kept, p);
        MatchExtends(tok, t, targ, committed, kept, i, p);
      } else {
        assert kept[0] == i;
      }
    }
  }

  lemma {:induction false} KeptMatches(tok: seq<Token>, t: Topology, targ: seq<Token>, committed: seq<Token>,
                                       kept: seq<nat>, i: nat)
    requires |tok| == |targ| == Size(t) && i < Size(t) && i in kept
    requires Accepted(tok, t, targ, committed, kept)
    ensures Matches(tok, t, targ, i) && Chain(t, i) <= kept
  {
    hide Forest, Size, Depth, Chain, Barren, PathTo;
    var j :| 0 <= j < |kept| && kept[j] == i;
    PathPrefix(t, kept, j);
    var c := kept[..j + 1];
    assert Chain(t, i) == c;
    forall k | 1 <= k < |c| ensures tok[c[k]] == targ[c[k - 1]] {
      AcceptedAt(tok, t, targ, committed, kept, k);
    }
  }

  lemma {:induction false} AcceptedAt(tok: seq<Token>, t: Topology, targ: seq<Token>, committed: seq<Token>,
                                      kept: seq<nat>, k: nat)
    requires |tok| == |targ| == Size(t) && Accepted(tok, t, targ, committed, kept) && 1 <= k < |kept|
    ensures kept[k - 1] < Size(t) && kept[k] < Size(t) && tok[kept[k]] == targ[kept[k - 1]]
  {
    hide Forest, Size, Depth, Barren, PathTo;
    assert kept[1..][k - 1] == kept[k];
    assert Picked(tok, kept[1..])[k - 1] == committed[k - 1];
  }

  lemma {:induction false} ChainStep(t: Topology, i: nat)
    requires i < Size(t)
    ensures Chain(t, i) == if Above(t, i) == -1 then [i] else Chain(t, Above(t, i)) + [i]
  {
  }

  lemma {:induction false} MatchesAbove(tok: seq<Token>, t: Topology, targ: seq<Token>, i: nat)
    requires |tok| == |targ| == Size(t) && i < Size(t) && Above(t, i) != -1 && Matches(tok, t, targ, i)
    ensures Matches(tok, t, targ, Above(t, i)) && tok[i] == targ[Above(t, i)]
  {
    hide Forest, Size, Depth, Chain;
    ChainStep(t, i);
    var c, b := Chain(t, i), Chain(t, Above(t, i));
    assert forall k :: 0 <= k < |b| ==> b[k] == c[k];
  }

  /** A matching child of a kept node is the kept node's successor. */
  lemma {:induction false} MatchExtends(tok: seq<Token>, t: Topology, targ: seq<Token>, committed: seq<Token>,
                                        kept: seq<nat>, i: nat, p: nat)
    requires |tok| == |targ| == Size(t) && i < Size(t) && DistinctSiblings(tok, t)
    requires Accepted(tok, t, targ, committed, kept)
    requires Above(t, i) == p && p in kept && tok[i] == targ[p]
    ensures i in kept
  {
    hide Forest, Size, Depth, Chain, PathTo;
    var j :| 0 <= j < |kept| && kept[j] == p;
    assert Carries(tok, t, p, committed[j], i);
    if j + 1 < |kept| {
      NextAbove(t, kept, j);
    }
  }

  lemma {:induction false} NextAbove(t: Topology, kept: seq<nat>, j: nat)
    requires PathTo(t, kept) && j + 1 < |kept|
    ensures kept[j + 1] < Size(t) && Above(t, kept[j + 1]) == kept[j]
  {
    hide Forest, Size, Depth, Chain, PathTo;
    PathPrefix(t, kept, j + 1);
    PathPrefix(t, kept, j);
    ChainStep(t, kept[j + 1]);
    var q, a := Above(t, kept[j + 1]), kept[..j + 2];
    assert a[j] == kept[j];
    if q != -1 {
      assert Chain(t, q) == a[..j + 1];
      assert Chain(t, q)[|Chain(t, q)| - 1] == q;
    }
  }

  // ----- the anchored form -----

  /** A forest hung under one new root, node 0: the anchored form's anchor. */
  function Anchored(t: Topology): (a: Topology)
    ensures Size(a) == Size(t) + 1 && Above(a, 0) == -1
    ensures forall i :: 0 <= i < Size(t) ==> Above(a, i + 1) == Above(t, i) + 1
  {
    var par := [0 - 1] + seq(Size(t), i requires 0 <= i < Size(t) => t.par[i] + 1);
    var dep := [0] + seq(Size(t), i requires 0 <= i < Size(t) => t.dep[i] + 1);
    AnchoredForest(t, par, dep);
    Shape(par, dep)
  }

  lemma {:induction false} AnchoredForest(t: Topology, par: seq<int>, dep: seq<int>)
    requires |par| == |dep| == Size(t) + 1 && par[0] == -1 && dep[0] == 0
    requires forall i :: 0 <= i < Size(t) ==> par[i + 1] == t.par[i] + 1 && dep[i + 1] == t.dep[i] + 1
    ensures Forest(|par|, par, dep)
  {
    hide Forest;
    forall i | 0 <= i < |par| ensures ChildDepth(par, dep, i) && dep[i] >= 0 {
      if i > 0 {
        NodeFacts(Size(t), t.par, t.dep, i - 1);
        ForestLinked(Size(t), t.par, t.dep, i - 1);
      }
    }
    ValidIsForest(|par|, par, dep);
  }

  function Shifted(path: seq<nat>): (r: seq<nat>)
    ensures |r| == |path| && forall k :: 0 <= k < |path| ==> r[k] == path[k] + 1
  {
    seq(|path|, k requires 0 <= k < |path| => path[k] + 1)
  }

  lemma {:induction false} AnchoredChain(t: Topology, i: nat)
    requires i < Size(t)
    ensures Chain(Anchored(t), i + 1) == [0] + Shifted(Chain(t, i))
    decreases Depth(t, i)
  {
    hide Forest, Size, Depth, Chain, Anchored;
    var a, p := Anchored(t), Above(t, i);
    ChainStep(a, i + 1);
    ChainStep(t, i);
    if p == -1 {
      ChainStep(a, 0);
    } else {
      AnchoredChain(t, p);
      ShiftedGrows(Chain(t, p), i);
    }
  }

  /** The anchored walk over a forest accepts exactly as the rooted walk does once the forest is
      hung under its anchor. */
  method TreeGreedyWalk(tok: seq<Token>, t: Topology, targ: seq<Token>, anchor: Token, ghost cur: Token)
    returns (path: seq<nat>, committed: seq<Token>)
    requires |tok| == |targ| == Size(t)
    ensures Accepted([cur] + tok, Anchored(t), [anchor] + targ, committed, [0] + Shifted(path))
  {
    hide Forest;
    path := [];
    committed := [];
    var cur': int := -1;
    var want, done := anchor, false;
    while !done
      invariant Walked(tok, t, targ, anchor, path, committed, cur', want)
      invariant done ==> Barren(tok, t, cur', want)
      decreases !done, Size(t) - |path|
    {
      var found, nxt := FindUnder(tok, t, cur', want);
      if !found {
        done := true;
      } else {
        WalkedOn(tok, t, targ, anchor, path, committed, cur', want, nxt);
        path := path + [nxt];
        committed := committed + [tok[nxt]];
        cur', want := nxt, targ[nxt];
      }
    }
    committed := committed + [want];
    WalkAccepted(tok, t, targ, anchor, cur, path, committed);
  }

  /** The walk so far: a path from a root, each node carrying what was wanted before it. */
  ghost predicate Walked(tok: seq<Token>, t: Topology, targ: seq<Token>, anchor: Token, path: seq<nat>,
                         committed: seq<Token>, cur: int, want: Token)
    requires |tok| == |targ| == Size(t)
  {
    && |committed| == |path| <= Size(t) && Within(path, Size(t))
    && (path != [] ==> PathTo(t, path)) && cur == (if path == [] then -1 else path[|path| - 1])
    && committed == Picked(tok, path) && committed + [want] == [anchor] + Picked(targ, path)
  }

  lemma {:induction false} WalkedOn(tok: seq<Token>, t: Topology, targ: seq<Token>, anchor: Token, path: seq<nat>,
                                    committed: seq<Token>, cur: int, want: Token, nxt: nat)
    requires |tok| == |targ| == Size(t) && Walked(tok, t, targ, anchor, path, committed, cur, want)
    requires Carries(tok, t, cur, want, nxt)
    ensures Walked(tok, t, targ, anchor, path + [nxt], committed + [tok[nxt]], nxt, targ[nxt])
    ensures |path| < Size(t)
  {
    hide Forest, Size, Depth, Chain, PathTo;
    if path == [] {
      PathRoot(t, nxt);
      assert path + [nxt] == [nxt];
    } else {
      PathGrows(t, path, nxt);
    }
    PathFacts(t, path + [nxt]);
    assert Picked(tok, path + [nxt]) == Picked(tok, path) + [tok[nxt]];
    assert Picked(targ, path + [nxt]) == Picked(targ, path) + [targ[nxt]];
  }

  method FindUnder(tok: seq<Token>, t: Topology, node: int, want: Token) returns (found: bool, c: nat)
    requires |tok| == Size(t)
    ensures found ==> Carries(tok, t, node, want, c)
    ensures !found ==> Barren(tok, t, node, want)
  {
    hide Forest;
    for i := 0 to Size(t)
      invariant forall k: nat :: k < i ==> !Carries(tok, t, node, want, k)
    {
      if Above(t, i) == node && tok[i] == want {
        return true, i;
      }
    }
    return false, 0;
  }

  lemma {:induction false} WalkAccepted(tok: seq<Token>, t: Topology, targ: seq<Token>, anchor: Token, cur: Token,
                                        path: seq<nat>, committed: seq<Token>)
    requires |tok| == |targ| == Size(t) && |committed| == |path| + 1
    requires path == [] || PathTo(t, path)
    requires Within(path, Size(t)) && committed[..|path|] == Picked(tok, path)
    requires committed == [anchor] + Picked(targ, path)
    requires Barren(tok, t, if path == [] then -1 else path[|path| - 1], committed[|path|])
    ensures Accepted([cur] + tok, Anchored(t), [anchor] + targ, committed, [0] + Shifted(path))
  {
    hide Forest, Size, Depth, Chain, PathTo;
    var a, tok', targ', kept := Anchored(t), [cur] + tok, [anchor] + targ, [0] + Shifted(path);
    if path == [] {
      PathRoot(a, 0);
      assert kept == [0];
    } else {
      AnchoredPath(t, path);
    }
    var last: int := kept[|kept| - 1];
    AnchoredBarren(tok, t, last - 1, committed[|path|], cur);
    ShiftedPicks(tok, cur, path);
    ShiftedPicks(targ, anchor, path);
  }

  lemma {:induction false} ShiftedPicks(xs: seq<Token>, x: Token, path: seq<nat>)
    requires Within(path, |xs|)
    ensures var kept := [0] + Shifted(path);
            kept[1..] == Shifted(path) && Within(kept, |xs| + 1) && Picked([x] + xs, kept) == [x] + Picked(xs, path) &&
            Picked([x] + xs, Shifted(path)) == Picked(xs, path)
  {
    hide Picked, Shifted;
    var s := Shifted(path);
  }

  lemma {:induction false} ShiftedGrows(c: seq<nat>, i: nat)
    ensures [0] + Shifted(c + [i]) == [0] + Shifted(c) + [i + 1]
  {
  }

  lemma {:induction false} AnchoredPath(t: Topology, path: seq<nat>)
    requires PathTo(t, path)
    ensures PathTo(Anchored(t), [0] + Shifted(path))
  {
    hide Forest, Size, Depth, Chain;
    AnchoredChain(t, path[|path| - 1]);
  }

  lemma {:induction false} AnchoredBarren(tok: seq<Token>, t: Topology, node: int, want: Token, cur: Token)
    requires |tok| == Size(t) && Barren(tok, t, node, want) && node >= -1
    ensures Barren([cur] + tok, Anchored(t), node + 1, want)
  {
    hide Forest;
    var tok' := [cur] + tok;
    var a, n := Anchored(t), node + 1;
    forall c: nat ensures !Carries(tok', a, n, want, c) {
      if 1 <= c <= Size(t) {
        var b := c - 1;
        assert !Carries(tok, t, node, want, b);
        assert Above(Anchored(t), b + 1) == Above(t, b) + 1;
      }
    }
  }
}
