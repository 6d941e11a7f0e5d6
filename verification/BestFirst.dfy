/** Best-first expansion of a draft tree, and why the nodes it keeps are the best there are. A node is
    the path of child ranks that leads to it from the anchor. */
module BestFirst {
  import opened Decode

  type Hidden = seq<int>

  /** One cache slot of the draft head. */
  type Slot = seq<int>

  datatype Kid = Kid(token: Token, logp: real)

  datatype Expansion = Expansion(carry: Hidden, kids: seq<Kid>)

  /** The draft head: a node's own slot, and one forward over the slots it may attend, giving the
      carried hidden state and the best children. */
  datatype Head = Head(
    project: (Token, Hidden, nat) -> Slot,
    forward: (seq<Slot>, Token, Hidden, nat) -> Expansion,
    maxPos: nat)

  /** The last committed slot and the committed context it closes. */
  datatype Anchor = Anchor(head: Head, ctx: seq<Slot>, tok: Token, h: Hidden, pos: nat)

  /** A drafted node, with the slots from the anchor down to itself. */
  datatype Node = Node(tok: Token, h: Hidden, chain: seq<Slot>)

  type Path = seq<nat>

  function Pos(A: Anchor, depth: nat): nat {
    Min(A.pos + depth, A.head.maxPos)
  }

  /** One expansion: the node attends the committed context, its ancestors and itself - no sibling. */
  function Expanded(A: Anchor, n: Node, depth: nat): Expansion {
    A.head.forward(A.ctx + n.chain, n.tok, n.h, Pos(A, depth))
  }

  function Up(path: Path): Path
    requires path != []
  {
    path[..|path| - 1]
  }

  predicate IsPath(A: Anchor, path: Path)
    decreases |path|, 0
  {
    path == [] || (IsPath(A, Up(path)) && path[|path| - 1] < |KidsAt(A, Up(path))|)
  }

  function NodeAt(A: Anchor, path: Path): (n: Node)
    requires IsPath(A, path)
    ensures |n.chain| == |path|
    decreases |path|, 1
  {
    if path == [] then Node(A.tok, A.h, [])
    else
      var above := NodeAt(A, Up(path));
      var e := Expanded(A, above, |path| - 1);
      var kid := KidsAt(A, Up(path))[path[|path| - 1]];
      Node(kid.token, e.carry, above.chain + [A.head.project(kid.token, e.carry, Pos(A, |path|))])
  }

  function KidsAt(A: Anchor, path: Path): seq<Kid>
    requires IsPath(A, path)
    decreases |path|, 2
  {
    Expanded(A, NodeAt(A, path), |path|).kids
  }

  /** Cumulative log-probability. */
  function Score(A: Anchor, path: Path): real
    requires IsPath(A, path)
    decreases |path|
  {
    if path == [] then 0.0 else Score(A, Up(path)) + KidsAt(A, Up(path))[path[|path| - 1]].logp
  }

  ghost predicate LogProbs(A: Anchor) {
    forall path, r :: IsPath(A, path) && 0 <= r < |KidsAt(A, path)| ==> KidsAt(A, path)[r].logp <= 0.0
  }

  /** A node of the tree the search ranges over. */
  predicate InTree(A: Anchor, D: nat, v: Path) {
    1 <= |v| <= D && IsPath(A, v)
  }

  // ----- the search -----

  datatype Cand = Cand(key: real, ord: nat, path: Path, par: int)

  datatype State = State(nodes: seq<Path>, parents: seq<int>, cands: seq<Cand>, ord: nat)

  predicate Before(a: Cand, b: Cand) {
    a.key < b.key || (a.key == b.key && a.ord < b.ord)
  }

  /** The candidate the heap pops: least key, earliest pushed. */
  function Least(cands: seq<Cand>): (i: nat)
    requires cands != []
    ensures i < |cands| && forall k :: 0 <= k < |cands| ==> !Before(cands[k], cands[i])
  {
    if |cands| == 1 then 0
    else
      var i := Least(cands[..|cands| - 1]);
      assert forall k :: 0 <= k < |cands| - 1 ==> cands[k] == cands[..|cands| - 1][k];
      if Before(cands[|cands| - 1], cands[i]) then |cands| - 1 else i
  }

  function Without<T>(s: seq<T>, i: nat): seq<T>
    requires i < |s|
  {
    s[..i] + s[i + 1..]
  }

  function Pushes(A: Anchor, path: Path, par: int, key: real, ord: nat): (cs: seq<Cand>)
    requires IsPath(A, path)
    ensures |cs| == |KidsAt(A, path)|
    ensures forall r :: 0 <= r < |cs| ==> cs[r] == Cand(key - KidsAt(A, path)[r].logp, ord + r, path + [r], par)
  {
    var kids := KidsAt(A, path);
    seq(|kids|, r requires 0 <= r < |kids| => Cand(key - kids[r].logp, ord + r, path + [r], par))
  }

  function Seed(A: Anchor): State {
    var cs := Pushes(A, [], -1, 0.0, 0);
    State([], [], cs, |cs|)
  }

  predicate Paths(A: Anchor, s: State) {
    forall k :: 0 <= k < |s.cands| ==> IsPath(A, s.cands[k].path)
  }

  function Pop(A: Anchor, m: nat, D: nat, s: State): State
    requires s.cands != [] && Paths(A, s)
  {
    var i := Least(s.cands);
    var c, rest := s.cands[i], Without(s.cands, i);
    var nodes, parents := s.nodes + [c.path], s.parents + [c.par];
    if |c.path| < D && |nodes| < m then
      var cs := Pushes(A, c.path, |s.nodes|, c.key, s.ord);
      State(nodes, parents, rest + cs, s.ord + |cs|)
    else State(nodes, parents, rest, s.ord)
  }

  lemma {:induction false} PathsPop(A: Anchor, m: nat, D: nat, s: State)
    requires s.cands != [] && Paths(A, s)
    ensures Paths(A, Pop(A, m, D, s))
  {
    hide KidsAt;
    var c := s.cands[Least(s.cands)];
    if |c.path| < D && |s.nodes| + 1 < m {
      KidPaths(A, c.path, |s.nodes|, c.key, s.ord);
    }
  }

  lemma {:induction false} KidPaths(A: Anchor, path: Path, par: int, key: real, ord: nat)
    requires IsPath(A, path)
    ensures forall c :: c in Pushes(A, path, par, key, ord) ==> IsPath(A, c.path) && Up(c.path) == path
  {
    hide KidsAt;
    forall r {:trigger Pushes(A, path, par, key, ord)[r]} | 0 <= r < |KidsAt(A, path)|
      ensures IsPath(A, Pushes(A, path, par, key, ord)[r].path) && Up(Pushes(A, path, par, key, ord)[r].path) == path
    {
      assert Up(path + [r]) == path;
    }
  }

  function Search(A: Anchor, m: nat, D: nat, s: State): State
    requires Paths(A, s)
    decreases m - |s.nodes|
  {
    if s.cands == [] || |s.nodes| >= m then s
    else
      PathsPop(A, m, D, s);
      Search(A, m, D, Pop(A, m, D, s))
  }

  /** The result of one drafter's own run. */
  function Best(A: Anchor, m: nat, D: nat): State {
    KidPaths(A, [], -1, 0.0, 0);
    Search(A, m, D, Seed(A))
  }

  // ----- the invariant -----

  /** Popped nodes: real nodes of the tree, each after its parent, best first. */
  predicate NodesOk(A: Anchor, D: nat, nodes: seq<Path>, parents: seq<int>) {
    && |parents| == |nodes|
    && (forall i :: 0 <= i < |nodes| ==> InTree(A, D, nodes[i]) && HangsFrom(nodes[i], nodes[..i], parents[i]))
    && (forall i, j :: 0 <= i < j < |nodes| ==> nodes[i] != nodes[j] && Score(A, nodes[i]) >= Score(A, nodes[j]))
  }

  /** `par` is where the node's parent is among those before it, -1 for a child of the anchor. */
  predicate HangsFrom(path: Path, nodes: seq<Path>, par: int)
    requires path != []
  {
    if |path| == 1 then par == -1 else 0 <= par < |nodes| && nodes[par] == Up(path)
  }

  /** Candidates: unpopped nodes, keyed by their score, none better than anything popped. */
  predicate CandsOk(A: Anchor, D: nat, s: State) {
    forall k :: 0 <= k < |s.cands| ==> CandOk(A, D, s, s.cands[k])
  }

  predicate CandOk(A: Anchor, D: nat, s: State, c: Cand) {
    && InTree(A, D, c.path) && c.key == -Score(A, c.path) && c.path !in s.nodes && HangsFrom(c.path, s.nodes, c.par)
    && NoBetter(A, c.path, s.nodes)
  }

  /** The path scores no more than any of the nodes. */
  predicate NoBetter(A: Anchor, path: Path, nodes: seq<Path>)
    requires IsPath(A, path)
  {
    forall i :: 0 <= i < |nodes| ==> IsPath(A, nodes[i]) && Score(A, path) <= Score(A, nodes[i])
  }

  predicate Apart(cands: seq<Cand>) {
    forall j, k :: 0 <= j < k < |cands| ==> cands[j].path != cands[k].path
  }

  /** Some prefix of the node is still a candidate, or it lies under `cut`. */
  predicate Covered(s: State, v: Path, cut: Path) {
    (cut != [] && cut < v) || exists k :: 0 <= k < |s.cands| && s.cands[k].path <= v
  }

  ghost predicate Frontier(A: Anchor, D: nat, s: State, cut: Path) {
    forall v :: InTree(A, D, v) && v !in s.nodes ==> Covered(s, v, cut)
  }

  ghost predicate SearchInv(A: Anchor, D: nat, s: State) {
    D >= 1 && NodesOk(A, D, s.nodes, s.parents) && CandsOk(A, D, s) && Apart(s.cands)
  }

  lemma {:induction false} PrefixPath(A: Anchor, v: Path, k: nat)
    requires IsPath(A, v) && k <= |v|
    ensures IsPath(A, v[..k])
    decreases |v|
  {
    hide KidsAt;
    if k < |v| {
      PrefixPath(A, Up(v), k);
      assert Up(v)[..k] == v[..k];
    } else {
      assert v[..k] == v;
    }
  }

  /** A descendant never outscores its ancestor. */
  lemma {:induction false} ScoreFalls(A: Anchor, v: Path, k: nat)
    requires LogProbs(A) && IsPath(A, v) && k <= |v|
    ensures IsPath(A, v[..k]) && Score(A, v) <= Score(A, v[..k])
    decreases |v|
  {
    hide KidsAt;
    PrefixPath(A, v, k);
    if k < |v| {
      ScoreFalls(A, Up(v), k);
      assert Up(v)[..k] == v[..k];
      assert KidsAt(A, Up(v))[v[|v| - 1]].logp <= 0.0;
    } else {
      assert v[..k] == v;
    }
  }

  /** Children of a node just popped are new candidates. */
  lemma {:induction false} PushedOk(A: Anchor, D: nat, s: State, path: Path, par: int, key: real, ord: nat)
    requires LogProbs(A) && IsPath(A, path) && |path| < D && key == -Score(A, path) && NoBetter(A, path, s.nodes)
    requires forall i :: 0 <= i < |s.nodes| ==> !(path < s.nodes[i])
    requires if path == [] then par == -1 else 0 <= par < |s.nodes| && s.nodes[par] == path
    ensures var cs := Pushes(A, path, par, key, ord);
            (forall r :: 0 <= r < |cs| ==> CandOk(A, D, s, cs[r]) && Up(cs[r].path) == path) && Apart(cs)
  {
    hide KidsAt;
    var cs := Pushes(A, path, par, key, ord);
    KidPaths(A, path, par, key, ord);
    forall r {:trigger cs[r]} | 0 <= r < |cs|
      ensures CandOk(A, D, s, cs[r]) && Up(cs[r].path) == path
    {
      var c := cs[r];
      assert c in cs;
      assert Up(c.path) == path && c.path[|c.path| - 1] == r;
      assert KidsAt(A, path)[r].logp <= 0.0;
      assert path < c.path;
    }
  }

  /** A popped node's ancestors were popped before it. */
  lemma {:induction false} NodesClosed(A: Anchor, D: nat, nodes: seq<Path>, parents: seq<int>, i: nat, k: nat)
    requires NodesOk(A, D, nodes, parents) && i < |nodes| && 1 <= k <= |nodes[i]|
    ensures nodes[i][..k] in nodes
    decreases |nodes[i]|
  {
    hide IsPath, Score;
    if k == |nodes[i]| {
      assert nodes[i][..k] == nodes[i];
    } else {
      assert HangsFrom(nodes[i], nodes[..i], parents[i]);
      var p := parents[i];
      assert nodes[p] == Up(nodes[i]);
      NodesClosed(A, D, nodes, parents, p, k);
      assert nodes[p][..k] == nodes[i][..k];
    }
  }

  lemma {:induction false} SeedOk(A: Anchor, D: nat)
    requires LogProbs(A) && D >= 1
    ensures Paths(A, Seed(A)) && SearchInv(A, D, Seed(A)) && Frontier(A, D, Seed(A), [])
  {
    hide KidsAt;
    var s := Seed(A);
    KidPaths(A, [], -1, 0.0, 0);
    PushedOk(A, D, s, [], -1, 0.0, 0);
    forall v | InTree(A, D, v) ensures Covered(s, v, []) {
      PushCovers(A, [], -1, 0.0, 0, v);
    }
  }

  /** The child on the way to a descendant is among those pushed. */
  lemma {:induction false} PushCovers(A: Anchor, path: Path, par: int, key: real, ord: nat, v: Path)
    requires IsPath(A, path) && IsPath(A, v) && path < v
    ensures exists r :: 0 <= r < |Pushes(A, path, par, key, ord)| && Pushes(A, path, par, key, ord)[r].path <= v
  {
    hide KidsAt;
    var k := |path| + 1;
    PrefixPath(A, v, k);
    assert Up(v[..k]) == path;
    var r := v[|path|];
    assert Pushes(A, path, par, key, ord)[r].path == v[..k];
  }

  lemma {:induction false} WithoutIs<T>(s: seq<T>, i: nat)
    requires i < |s|
    ensures forall k :: 0 <= k < |s| - 1 ==> Without(s, i)[k] == s[if k < i then k else k + 1]
    ensures forall k :: 0 <= k < |s| && k != i ==> s[k] in Without(s, i)
  {
    forall k | 0 <= k < |s| && k != i ensures s[k] in Without(s, i) {
      assert s[k] == Without(s, i)[if k < i then k else k - 1];
    }
  }

  lemma {:induction false} PopNodes(A: Anchor, m: nat, D: nat, s: State)
    requires LogProbs(A) && SearchInv(A, D, s) && Paths(A, s) && s.cands != []
    ensures var s', c := Pop(A, m, D, s), s.cands[Least(s.cands)];
            NodesOk(A, D, s'.nodes, s'.parents) && s'.nodes[|s.nodes|] == c.path &&
            NoBetter(A, c.path, s'.nodes) && forall i :: 0 <= i < |s'.nodes| ==> !(c.path < s'.nodes[i])
  {
    hide KidsAt, Score, IsPath, Pushes;
    var s', c := Pop(A, m, D, s), s.cands[Least(s.cands)];
    assert CandOk(A, D, s, c);
    forall i | 0 <= i < |s'.nodes| ensures HangsFrom(s'.nodes[i], s'.nodes[..i], s'.parents[i]) &&
                                           !(c.path < s'.nodes[i]) {
      if i < |s.nodes| {
        assert s'.nodes[..i] == s.nodes[..i];
        assert HangsFrom(s.nodes[i], s.nodes[..i], s.parents[i]);
        assert c.path < s.nodes[i] ==> s.nodes[i][..|c.path|] == c.path;
        if c.path < s.nodes[i] {
          NodesClosed(A, D, s.nodes, s.parents, i, |c.path|);
        }
      } else {
        assert s'.nodes[..i] == s.nodes;
      }
    }
  }

  /** The candidates left behind stay candidates: none of them beats what was popped. */
  lemma {:induction false} RestOk(A: Anchor, m: nat, D: nat, s: State, k: nat)
    requires LogProbs(A) && SearchInv(A, D, s) && Paths(A, s) && s.cands != [] && k < |s.cands| && k != Least(s.cands)
    ensures CandOk(A, D, Pop(A, m, D, s), s.cands[k]) && !(s.cands[k].path == s.cands[Least(s.cands)].path)
    ensures !(Up(s.cands[k].path) == s.cands[Least(s.cands)].path)
  {
    hide KidsAt, Score, IsPath, Pushes;
    var i := Least(s.cands);
    var s', c, d := Pop(A, m, D, s), s.cands[i], s.cands[k];
    assert CandOk(A, D, s, c) && CandOk(A, D, s, d);
    assert c.path != d.path;
    assert !Before(d, c);
    assert s'.nodes[..|s.nodes|] == s.nodes;
    assert HangsFrom(d.path, s.nodes, d.par);
  }

  lemma {:induction false} PopInv(A: Anchor, m: nat, D: nat, s: State)
    requires LogProbs(A) && SearchInv(A, D, s) && Paths(A, s) && s.cands != []
    ensures SearchInv(A, D, Pop(A, m, D, s))
  {
    hide KidsAt, Score, IsPath, Pushes, CandOk, NodesOk;
    var i := Least(s.cands);
    var s', c, rest := Pop(A, m, D, s), s.cands[i], Without(s.cands, i);
    PopNodes(A, m, D, s);
    WithoutIs(s.cands, i);
    forall k {:trigger rest[k]} | 0 <= k < |rest|
      ensures CandOk(A, D, s', rest[k]) && rest[k].path != [] && rest[k].path != c.path && Up(rest[k].path) != c.path
    {
      var j := if k < i then k else k + 1;
      RestOk(A, m, D, s, j);
      CandReal(A, D, s, s.cands[j]);
    }
    if |c.path| < D && |s.nodes| + 1 < m {
      CandReal(A, D, s, c);
      PushedOk(A, D, s', c.path, |s.nodes|, c.key, s.ord);
    }
  }

  lemma {:induction false} CandReal(A: Anchor, D: nat, s: State, c: Cand)
    requires CandOk(A, D, s, c)
    ensures InTree(A, D, c.path) && c.path != [] && c.key == -Score(A, c.path)
  {
  }

  lemma {:induction false} PopFrontier(A: Anchor, m: nat, D: nat, s: State)
    requires LogProbs(A) && SearchInv(A, D, s) && Paths(A, s) && s.cands != [] && Frontier(A, D, s, [])
    ensures var s', c := Pop(A, m, D, s), s.cands[Least(s.cands)];
            Frontier(A, D, s', if |s'.nodes| < m then [] else c.path)
  {
    hide KidsAt, Score, IsPath, Pushes, CandOk, NodesOk, Pop, Covered;
    var s', c := Pop(A, m, D, s), s.cands[Least(s.cands)];
    var cut := if |s'.nodes| < m then [] else c.path;
    assert CandOk(A, D, s, c);
    CandReal(A, D, s, c);
    PopShape(A, m, D, s);
    forall v | InTree(A, D, v) && v !in s'.nodes ensures Covered(s', v, cut) {
      assert v !in s.nodes by { assert forall j :: 0 <= j < |s.nodes| ==> s'.nodes[j] == s.nodes[j]; }
      assert v != c.path by { assert s'.nodes[|s.nodes|] == c.path; }
      PopCovers(A, m, D, s, v);
    }
  }

  lemma {:induction false} PopShape(A: Anchor, m: nat, D: nat, s: State)
    requires s.cands != [] && Paths(A, s)
    ensures var s', i := Pop(A, m, D, s), Least(s.cands);
            var c := s.cands[i];
            s'.nodes == s.nodes + [c.path] && IsPath(A, c.path) &&
            s'.cands == Without(s.cands, i) +
                        (if |c.path| < D && |s'.nodes| < m then Pushes(A, c.path, |s.nodes|, c.key, s.ord) else [])
  {
    hide KidsAt, IsPath, Pushes;
    assert IsPath(A, s.cands[Least(s.cands)].path);
  }

  lemma {:induction false} OthersStay(cands: seq<Cand>, i: nat, k: nat)
    requires i < |cands| && k < |cands| && k != i
    ensures exists j :: 0 <= j < |Without(cands, i)| && Without(cands, i)[j] == cands[k]
  {
    WithoutIs(cands, i);
    var j := if k < i then k else k - 1;
    assert Without(cands, i)[j] == cands[k];
  }

  lemma {:induction false} PopCovers(A: Anchor, m: nat, D: nat, s: State, v: Path)
    requires Paths(A, s) && s.cands != [] && InTree(A, D, v) && Covered(s, v, [])
    requires v != s.cands[Least(s.cands)].path
    requires s.cands[Least(s.cands)].path != []
    ensures var s', c := Pop(A, m, D, s), s.cands[Least(s.cands)];
            Covered(s', v, if |s'.nodes| < m then [] else c.path)
  {
    hide KidsAt, Score, IsPath, Pushes, Pop, Without;
    var i := Least(s.cands);
    var s', c, rest := Pop(A, m, D, s), s.cands[i], Without(s.cands, i);
    PopShape(A, m, D, s);
    var k :| 0 <= k < |s.cands| && s.cands[k].path <= v;
    if k != i {
      OthersStay(s.cands, i, k);
      var j :| 0 <= j < |rest| && rest[j] == s.cands[k];
      assert s'.cands[j] == s.cands[k];
    } else if |s'.nodes| < m {
      PushCovers(A, c.path, |s.nodes|, c.key, s.ord, v);
      var cs := Pushes(A, c.path, |s.nodes|, c.key, s.ord);
      var r :| 0 <= r < |cs| && cs[r].path <= v;
      assert s'.cands[|rest| + r] == cs[r];
    }
  }

  /** Best-first drafting is optimal: the nodes kept score at least as much as any node left out, in
      non-increasing order and parents first, and fewer than m of them only if that is the whole tree. */
  ghost predicate Optimal(A: Anchor, m: nat, D: nat, nodes: seq<Path>, parents: seq<int>) {
    && NodesOk(A, D, nodes, parents) && |nodes| <= m
    && (forall v :: InTree(A, D, v) && v !in nodes ==> |nodes| == m && NoBetter(A, v, nodes))
  }

  lemma {:induction false} SearchOptimal(A: Anchor, m: nat, D: nat, s: State)
    requires LogProbs(A) && SearchInv(A, D, s) && Paths(A, s) && Frontier(A, D, s, []) && |s.nodes| < m
    ensures var r := Search(A, m, D, s); Optimal(A, m, D, r.nodes, r.parents)
    decreases m - |s.nodes|
  {
    hide KidsAt, Score, IsPath, Pushes, CandOk, NodesOk, Paths, NoBetter, Pop, Covered;
    if s.cands != [] {
      var s', c := Pop(A, m, D, s), s.cands[Least(s.cands)];
      PathsPop(A, m, D, s);
      PopInv(A, m, D, s);
      PopNodes(A, m, D, s);
      PopFrontier(A, m, D, s);
      PopShape(A, m, D, s);
      if |s'.nodes| < m {
        SearchOptimal(A, m, D, s');
      } else {
        forall v | InTree(A, D, v) && v !in s'.nodes ensures NoBetter(A, v, s'.nodes) {
          CutOff(A, D, s', v, c.path);
        }
      }
    } else {
      forall v | InTree(A, D, v) ensures v in s.nodes {
        NothingCovers(s, v);
      }
    }
  }

  lemma {:induction false} NothingCovers(s: State, v: Path)
    requires s.cands == []
    ensures !Covered(s, v, [])
  {
  }

  /** What the frontier leaves uncovered cannot beat what was kept. */
  lemma {:induction false} CutOff(A: Anchor, D: nat, s: State, v: Path, cut: Path)
    requires LogProbs(A) && SearchInv(A, D, s) && InTree(A, D, v) && Covered(s, v, cut)
    requires IsPath(A, cut) && NoBetter(A, cut, s.nodes)
    ensures NoBetter(A, v, s.nodes)
  {
    hide KidsAt, Score, IsPath;
    if cut != [] && cut < v {
      ScoreFalls(A, v, |cut|);
      assert v[..|cut|] == cut;
    } else {
      var k :| 0 <= k < |s.cands| && s.cands[k].path <= v;
      var c := s.cands[k];
      assert CandOk(A, D, s, c);
      ScoreFalls(A, v, |c.path|);
      assert v[..|c.path|] == c.path;
    }
  }

  lemma {:induction false} BestIsOptimal(A: Anchor, m: nat, D: nat)
    requires LogProbs(A) && D >= 1 && m >= 1
    ensures Optimal(A, m, D, Best(A, m, D).nodes, Best(A, m, D).parents)
  {
    SeedOk(A, D);
    SearchOptimal(A, m, D, Seed(A));
  }

  // ----- ties -----

  /** v, a child of the a-th node drafted (of the anchor for -1), becomes a candidate before w, a child of the
      b-th: its parent is drafted earlier, or it is ranked higher among the same parent's children. */
  predicate Earlier(v: Path, a: int, w: Path, b: int)
    requires v != [] && w != []
  {
    a < b || (a == b && v[|v| - 1] < w[|w| - 1])
  }

  /** A node at least as good that became a candidate before the j-th node drafted was drafted before it. */
  predicate TakenBefore(A: Anchor, D: nat, nodes: seq<Path>, parents: seq<int>, j: nat, v: Path, a: int)
    requires j < |nodes| && j < |parents|
  {
    && InTree(A, D, v) && nodes[j] != [] && IsPath(A, nodes[j]) && HangsFrom(v, nodes[..j], a)
    && Earlier(v, a, nodes[j], parents[j]) && Score(A, v) >= Score(A, nodes[j])
    ==> v in nodes[..j]
  }

  /** The tie rule: among equally good nodes the one that became a candidate first is drafted first. */
  ghost predicate InTurn(A: Anchor, D: nat, nodes: seq<Path>, parents: seq<int>) {
    |parents| == |nodes| &&
    forall j, v, a {:trigger TakenBefore(A, D, nodes, parents, j, v, a)} ::
      0 <= j < |nodes| ==> TakenBefore(A, D, nodes, parents, j, v, a)
  }

  predicate Awaits(s: State, v: Path) {
    exists k :: 0 <= k < |s.cands| && s.cands[k].path == v
  }

  /** Every child of a drafted node is drafted or a candidate; candidates are numbered as they came. */
  ghost predicate Queued(A: Anchor, D: nat, s: State) {
    && (forall v, a {:trigger HangsFrom(v, s.nodes, a)} ::
          InTree(A, D, v) && HangsFrom(v, s.nodes, a) ==> v in s.nodes || Awaits(s, v))
    && (forall k :: 0 <= k < |s.cands| ==> s.cands[k].path != [] && s.cands[k].ord < s.ord &&
                                           s.cands[k].par < |s.nodes|)
    && forall k, l :: 0 <= k < |s.cands| && 0 <= l < |s.cands| ==> Numbered(s.cands[k], s.cands[l])
  }

  predicate Numbered(c: Cand, d: Cand) {
    c.path != [] && d.path != [] && Earlier(c.path, c.par, d.path, d.par) ==> c.ord < d.ord
  }

  lemma {:induction false} SeedQueued(A: Anchor, D: nat)
    requires LogProbs(A) && D >= 1
    ensures Queued(A, D, Seed(A)) && InTurn(A, D, Seed(A).nodes, Seed(A).parents)
  {
    hide KidsAt, Score;
    var s := Seed(A);
    forall v, a | InTree(A, D, v) && HangsFrom(v, s.nodes, a) ensures Awaits(s, v) {
      var r := v[0];
      assert Up(v) == [] && s.cands[r].path == [] + [r] == v;
    }
  }

  /** The parent of a hanging node is only one of the nodes. */
  lemma {:induction false} OneParent(nodes: seq<Path>, v: Path, a: int, b: int)
    requires v != [] && HangsFrom(v, nodes, a) && HangsFrom(v, nodes, b)
    requires forall i, j :: 0 <= i < j < |nodes| ==> nodes[i] != nodes[j]
    ensures a == b
  {
  }

  lemma {:induction false} PopInTurn(A: Anchor, m: nat, D: nat, s: State, v: Path, a: int)
    requires LogProbs(A) && SearchInv(A, D, s) && Paths(A, s) && s.cands != [] && Queued(A, D, s)
    requires InTree(A, D, v) && HangsFrom(v, s.nodes, a)
    requires var c := s.cands[Least(s.cands)];
             c.path != [] && IsPath(A, c.path) && Earlier(v, a, c.path, c.par) && Score(A, v) >= Score(A, c.path)
    ensures v in s.nodes
  {
    hide KidsAt, Score, IsPath;
    var i := Least(s.cands);
    var c := s.cands[i];
    if v !in s.nodes {
      var k :| 0 <= k < |s.cands| && s.cands[k].path == v;
      var d := s.cands[k];
      assert CandOk(A, D, s, c) && CandOk(A, D, s, d);
      OneParent(s.nodes, v, a, d.par);
    }
  }

  lemma {:induction false} PopQueued(A: Anchor, m: nat, D: nat, s: State)
    requires LogProbs(A) && SearchInv(A, D, s) && Paths(A, s) && s.cands != [] && Queued(A, D, s)
    requires |s.nodes| + 1 < m
    ensures Queued(A, D, Pop(A, m, D, s))
  {
    hide KidsAt, Score, IsPath, Pushes, Pop, Least;
    var i := Least(s.cands);
    var s', c := Pop(A, m, D, s), s.cands[i];
    PopShape(A, m, D, s);
    forall v, a {:trigger HangsFrom(v, s'.nodes, a)} | InTree(A, D, v) && HangsFrom(v, s'.nodes, a)
      ensures v in s'.nodes || Awaits(s', v)
    {
      PopAwaits(A, m, D, s, v, a);
    }
    PopNumbers(A, m, D, s);
  }

  lemma {:induction false} PopAwaits(A: Anchor, m: nat, D: nat, s: State, v: Path, a: int)
    requires Paths(A, s) && s.cands != [] && Queued(A, D, s) && |s.nodes| + 1 < m
    requires InTree(A, D, v) && HangsFrom(v, Pop(A, m, D, s).nodes, a)
    ensures v in Pop(A, m, D, s).nodes || Awaits(Pop(A, m, D, s), v)
  {
    hide KidsAt, Score, IsPath, Pushes, Pop, Least, Without;
    var i := Least(s.cands);
    var s', c, rest := Pop(A, m, D, s), s.cands[i], Without(s.cands, i);
    PopShape(A, m, D, s);
    if |v| > 1 && a == |s.nodes| {
      assert Up(v) == c.path;
      PushCovers(A, c.path, |s.nodes|, c.key, s.ord, v);
      var cs := Pushes(A, c.path, |s.nodes|, c.key, s.ord);
      var r :| 0 <= r < |cs| && cs[r].path <= v;
      assert s'.cands[|rest| + r].path == v;
    } else {
      assert HangsFrom(v, s.nodes, a);
      if v in s.nodes {
        var j :| 0 <= j < |s.nodes| && s.nodes[j] == v;
        assert s'.nodes[j] == v;
      } else {
        var k :| 0 <= k < |s.cands| && s.cands[k].path == v;
        if k == i {
          assert s'.nodes[|s.nodes|] == v;
        } else {
          OthersStay(s.cands, i, k);
          var j :| 0 <= j < |rest| && rest[j] == s.cands[k];
          assert s'.cands[j].path == v;
        }
      }
    }
  }

  lemma {:induction false} PopNumbers(A: Anchor, m: nat, D: nat, s: State)
    requires Paths(A, s) && s.cands != [] && Queued(A, D, s) && |s.nodes| + 1 < m
    ensures var s' := Pop(A, m, D, s);
            (forall k :: 0 <= k < |s'.cands| ==>
                           s'.cands[k].path != [] && s'.cands[k].ord < s'.ord && s'.cands[k].par < |s'.nodes|) &&
            forall k, l :: 0 <= k < |s'.cands| && 0 <= l < |s'.cands| ==> Numbered(s'.cands[k], s'.cands[l])
  {
    hide KidsAt, Score, IsPath, Least, Earlier, HangsFrom;
    var i := Least(s.cands);
    var s', c, rest := Pop(A, m, D, s), s.cands[i], Without(s.cands, i);
    PopShape(A, m, D, s);
    WithoutIs(s.cands, i);
    assert forall k :: 0 <= k < |rest| ==> s'.cands[k] == rest[k];
    forall k, l | 0 <= k < |s'.cands| && 0 <= l < |s'.cands| ensures Numbered(s'.cands[k], s'.cands[l]) {
      if k < |rest| && l < |rest| {
        assert Numbered(s.cands[if k < i then k else k + 1], s.cands[if l < i then l else l + 1]);
      } else {
        LateNumber(s'.cands[k], s'.cands[l]);
      }
    }
  }

  lemma {:induction false} LateNumber(c: Cand, d: Cand)
    requires c.path != [] && d.path != []
    requires c.par < d.par ==> c.ord < d.ord
    requires c.par == d.par ==> (c.path[|c.path| - 1] < d.path[|d.path| - 1] ==> c.ord < d.ord)
    ensures Numbered(c, d)
  {
  }

  lemma {:induction false} SearchInTurn(A: Anchor, m: nat, D: nat, s: State)
    requires LogProbs(A) && SearchInv(A, D, s) && Paths(A, s) && Queued(A, D, s) && InTurn(A, D, s.nodes, s.parents)
    requires |s.nodes| < m
    ensures var r := Search(A, m, D, s); InTurn(A, D, r.nodes, r.parents)
    decreases m - |s.nodes|
  {
    hide KidsAt, Score, IsPath, Pushes, CandOk, NodesOk, Paths, NoBetter, Pop, Queued, TakenBefore, Least;
    if s.cands != [] {
      var s' := Pop(A, m, D, s);
      PathsPop(A, m, D, s);
      PopInv(A, m, D, s);
      PopTurn(A, m, D, s);
      PopShape(A, m, D, s);
      if |s'.nodes| < m {
        PopQueued(A, m, D, s);
        SearchInTurn(A, m, D, s');
      }
    }
  }

  lemma {:induction false} PopTurn(A: Anchor, m: nat, D: nat, s: State)
    requires LogProbs(A) && SearchInv(A, D, s) && Paths(A, s) && s.cands != [] && Queued(A, D, s)
    requires InTurn(A, D, s.nodes, s.parents)
    ensures InTurn(A, D, Pop(A, m, D, s).nodes, Pop(A, m, D, s).parents)
  {
    hide KidsAt, Score, IsPath, Pushes, CandOk, NodesOk, NoBetter, Queued, Least, Earlier, HangsFrom;
    var s', c, n := Pop(A, m, D, s), s.cands[Least(s.cands)], |s.nodes|;
    PopShape(A, m, D, s);
    forall j, v, a {:trigger TakenBefore(A, D, s'.nodes, s'.parents, j, v, a)} | 0 <= j < |s'.nodes|
      ensures TakenBefore(A, D, s'.nodes, s'.parents, j, v, a)
    {
      if j < n {
        assert TakenBefore(A, D, s.nodes, s.parents, j, v, a);
        assert s'.nodes[..j] == s.nodes[..j];
      } else {
        assert s'.nodes[..n] == s.nodes;
        if InTree(A, D, v) && HangsFrom(v, s.nodes, a) && c.path != [] && Earlier(v, a, c.path, c.par) &&
           Score(A, v) >= Score(A, c.path) {
          PopInTurn(A, m, D, s, v, a);
        }
      }
    }
  }

  /** Best-first drafting takes equally good nodes in the order in which they became candidates: in particular
      equally likely children of one node in the order of their ranks. */
  lemma {:induction false} BestInTurn(A: Anchor, m: nat, D: nat)
    requires LogProbs(A) && D >= 1 && m >= 1
    ensures InTurn(A, D, Best(A, m, D).nodes, Best(A, m, D).parents)
  {
    SeedOk(A, D);
    SeedQueued(A, D);
    SearchInTurn(A, m, D, Seed(A));
  }
}
