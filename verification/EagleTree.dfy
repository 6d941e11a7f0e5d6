/** The draft head's tree search in place: a context buffer whose tail is scratch, a side table of
    drafted slots, and a heap of candidates - run alone, or for many forks in lockstep.

    The loops keep the variables the search is specified over in `BestFirst`: `Mirrors` ties them to a
    search state between steps, `Half` to the state a pop leaves behind while the popped node still
    waits for its children. */
module EagleTree {
  import opened Decode
  import opened Options
  import opened Indices
  import opened BestFirst

  /** A heap entry: the negated cumulative log-probability, the push order, and the drafted token with
      its parent, depth and carried hidden state. */
  datatype Item = Item(key: real, ord: nat, tok: Token, par: int, depth: nat, h: Hidden)

  /** The tree so far, the heap, each node's drafted ancestors, and the drafted slots. */
  datatype Vars = Vars(tokens: seq<Token>, parents: seq<int>, depths: seq<nat>, heap: seq<Item>, ord: nat,
                       anc: seq<seq<nat>>, side: seq<Slot>)

  /** A node about to be expanded; `own` is -1 for the anchor. */
  datatype Pend = Pend(tok: Token, h: Hidden, depth: nat, anc: seq<nat>, own: int, key: real)

  datatype DraftedTree = DraftedTree(tokens: seq<Token>, parents: seq<int>, depths: seq<nat>)

  class EagleDrafter {
    const head: Head
    var kbuf: array<Slot>
    var ctxLen: nat
    var lastTok: Token
    var lastH: Hidden
    var lastPos: nat

    ghost predicate Valid()
      reads this
    {
      ctxLen <= kbuf.Length
    }

    /** The committed context. */
    ghost function Context(): Anchor
      reads this, kbuf
      requires Valid()
    {
      Anchor(head, kbuf[..ctxLen], lastTok, lastH, lastPos)
    }

    constructor (head: Head)
      ensures Valid() && fresh(kbuf) && this.head == head && ctxLen == 0
    {
      this.head := head;
      kbuf := new Slot[0];
      ctxLen, lastTok, lastH, lastPos := 0, 0, [], 0;
    }

    /** Grow the buffer to at least `need` slots; the committed ones are kept. */
    method EnsureCap(need: nat)
      requires Valid()
      modifies this`kbuf
      ensures Valid() && need <= kbuf.Length && Context() == old(Context())
      ensures kbuf == old(kbuf) || fresh(kbuf)
    {
      if need <= kbuf.Length { return; }
      var old_, n := kbuf, ctxLen;
      var grown := new Slot[Max(1024, Max(2 * need, n))](_ => []);
      for i := 0 to n
        invariant forall k :: 0 <= k < i ==> grown[k] == old_[k]
      {
        grown[i] := old_[i];
      }
      assert grown[..n] == old_[..n];
      kbuf := grown;
    }

    /** Append committed positions: each token with the fused feature that predicted it. */
    method Extend(tokens: seq<Token>, fused: seq<Hidden>, base: nat)
      requires Valid() && |fused| == |tokens|
      modifies this, kbuf
      ensures Valid()
      ensures tokens == [] ==> Context() == old(Context())
      ensures tokens != [] ==>
                var n := |tokens|;
                Context() == Anchor(head, old(Context()).ctx + Slots(head, tokens, fused, base), tokens[n - 1],
                                    fused[n - 1],
                                    Min(base + n - 1, head.maxPos))
    {
      if tokens == [] { return; }
      EnsureCap(ctxLen + |tokens|);
      ghost var was := kbuf[..ctxLen];
      var a, at := kbuf, ctxLen;
      for i := 0 to |tokens|
        invariant forall k :: 0 <= k < i ==> a[at + k] == Slots(head, tokens, fused, base)[k]
        invariant a[..at] == was
        invariant kbuf == a && ctxLen == at && at + |tokens| <= a.Length
      {
        a[at + i] := head.project(tokens[i], fused[i], Min(base + i, head.maxPos));
      }
      ctxLen := ctxLen + |tokens|;
      lastTok, lastH, lastPos := tokens[|tokens| - 1], fused[|tokens| - 1], Min(base + |tokens| - 1, head.maxPos);
      assert a[..ctxLen] == was + Slots(head, tokens, fused, base);
    }

    /** One node forward: ancestors and the node's own slot go into the scratch tail, right after the
        committed context, and the attention reads everything up to there. */
    method Expand(p: Pend, side: seq<Slot>) returns (e: Expansion, side': seq<Slot>)
      requires Valid() && ctxLen + |p.anc| + 1 <= kbuf.Length && Within(p.anc, |side|) && -1 <= p.own < |side|
      modifies kbuf
      ensures Context() == old(Context())
      ensures var A := Context();
              var pos := Min(A.pos + p.depth, head.maxPos);
              var slot := head.project(p.tok, p.h, pos);
              side' == (if p.own == -1 then side else side[p.own := slot]) &&
              e == head.forward(A.ctx + Picked(side, p.anc) + (if p.own == -1 then [] else [slot]), p.tok, p.h, pos)
    {
      ghost var was := kbuf[..ctxLen];
      var pos, T := Min(lastPos + p.depth, head.maxPos), ctxLen;
      for i := 0 to |p.anc|
        invariant T == ctxLen + i && kbuf[..ctxLen] == was
        invariant forall k :: 0 <= k < i ==> kbuf[ctxLen + k] == side[p.anc[k]]
      {
        kbuf[T] := side[p.anc[i]];
        T := T + 1;
      }
      side' := side;
      if p.own != -1 {
        var slot := head.project(p.tok, p.h, pos);
        side' := side[p.own := slot];
        kbuf[T] := slot;
        T := T + 1;
      }
      assert kbuf[..T] == was + Picked(side, p.anc) + (if p.own == -1 then [] else [head.project(p.tok, p.h, pos)]);
      e := head.forward(kbuf[..T], p.tok, p.h, pos);
    }
  }

  function Slots(h: Head, tokens: seq<Token>, fused: seq<Hidden>, base: nat): (s: seq<Slot>)
    requires |fused| == |tokens|
    ensures |s| == |tokens| && forall i :: 0 <= i < |s| ==>
                                             s[i] == h.project(tokens[i], fused[i], Min(base + i, h.maxPos))
  {
    seq(|tokens|, i requires 0 <= i < |tokens| => h.project(tokens[i], fused[i], Min(base + i, h.maxPos)))
  }

  // ----- the variables against the abstract search -----

  function ItemOf(A: Anchor, c: Cand): Item
    requires IsPath(A, c.path)
  {
    Item(c.key, c.ord, NodeAt(A, c.path).tok, c.par, |c.path|, NodeAt(A, c.path).h)
  }

  /** A drafted node's own slot. */
  function Own(A: Anchor, path: Path): Slot
    requires IsPath(A, path) && path != []
  {
    NodeAt(A, path).chain[|path| - 1]
  }

  ghost predicate TreeMirrors(A: Anchor, nodes: seq<Path>, parents: seq<int>, v: Vars) {
    && |v.tokens| == |v.depths| == |v.anc| == |nodes| && v.parents == parents
    && forall i :: 0 <= i < |nodes| ==> NodeMirrors(A, nodes[i], v, i)
  }

  ghost predicate NodeMirrors(A: Anchor, path: Path, v: Vars, i: nat)
    requires i < |v.tokens| && i < |v.depths| && i < |v.anc|
  {
    && path != [] && IsPath(A, path) && v.tokens[i] == NodeAt(A, path).tok && v.depths[i] == |path|
    && Within(v.anc[i], Min(i, |v.side|)) && Picked(v.side, v.anc[i]) == NodeAt(A, Up(path)).chain
  }

  ghost predicate HeapMirrors(A: Anchor, nodes: seq<Path>, cands: seq<Cand>, v: Vars) {
    && |v.heap| == |cands|
    && forall k :: 0 <= k < |cands| ==> CandMirrors(A, nodes, cands[k], v, k)
  }

  ghost predicate CandMirrors(A: Anchor, nodes: seq<Path>, c: Cand, v: Vars, k: nat)
    requires k < |v.heap|
  {
    && IsPath(A, c.path) && c.path != [] && v.heap[k] == ItemOf(A, c) && HangsFrom(c.path, nodes, c.par)
    && (c.par >= 0 ==> c.par < |v.side| && v.side[c.par] == Own(A, Up(c.path)))
  }

  ghost predicate Mirrors(A: Anchor, m: nat, s: State, v: Vars) {
    TreeMirrors(A, s.nodes, s.parents, v) && HeapMirrors(A, s.nodes, s.cands, v) && v.ord == s.ord && |v.side| == m
  }

  /** The heap's minimum. */
  method LeastItem(heap: seq<Item>, ghost A: Anchor, ghost cands: seq<Cand>) returns (i: nat)
    requires heap != [] && |cands| == |heap|
    requires forall k :: 0 <= k < |cands| ==> heap[k].key == cands[k].key && heap[k].ord == cands[k].ord
    ensures i == Least(cands)
  {
    i := 0;
    assert cands[..1] == [cands[0]];
    for k := 1 to |heap|
      invariant i < k && i == Least(cands[..k])
    {
      assert cands[..k + 1][..k] == cands[..k];
      if heap[k].key < heap[i].key || (heap[k].key == heap[i].key && heap[k].ord < heap[i].ord) {
        i := k;
      }
    }
    assert cands[..|heap|] == cands;
  }

  /** Pop the best candidate into the tree; it is to be expanded unless it is too deep or the tree is
      full. */
  method TakeBest(v0: Vars, m: nat, D: nat, ghost A: Anchor, ghost s: State) returns (v: Vars, p: Option<Pend>)
    requires Mirrors(A, m, s, v0) && v0.heap != [] && |v0.tokens| < m && Paths(A, s)
    ensures p.None? ==> Mirrors(A, m, Pop(A, m, D, s), v)
    ensures p.Some? ==> Half(A, m, D, s, v, p.value)
    ensures |v.tokens| == |v0.tokens| + 1
  {
    hide IsPath, NodeAt, Pop, Least;
    forall k | 0 <= k < |s.cands| ensures v0.heap[k].key == s.cands[k].key && v0.heap[k].ord == s.cands[k].ord {
      assert CandMirrors(A, s.nodes, s.cands[k], v0, k);
    }
    var k := LeastItem(v0.heap, A, s.cands);
    var it, i := v0.heap[k], |v0.tokens|;
    assert CandMirrors(A, s.nodes, s.cands[k], v0, k);
    if it.par >= 0 {
      assert NodeMirrors(A, s.nodes[it.par], v0, it.par);
    }
    var anc := if it.par >= 0 then v0.anc[it.par] + [it.par] else [];
    v := v0.(tokens := v0.tokens + [it.tok], parents := v0.parents + [it.par], depths := v0.depths + [it.depth],
      anc := v0.anc + [anc], heap := v0.heap[..k] + v0.heap[k + 1..]);
    Taken(A, m, D, s, v0, v, k);
    if it.depth < D && |v.tokens| < m {
      p := Some(Pend(it.tok, it.h, it.depth, anc, i, it.key));
    } else {
      p := None;
      PopIs(A, m, D, s);
    }
  }

  lemma {:induction false} PopIs(A: Anchor, m: nat, D: nat, s: State)
    requires s.cands != [] && Paths(A, s)
    ensures var k := Least(s.cands);
            var c, rest := s.cands[k], Without(s.cands, k);
            IsPath(A, c.path) &&
            Pop(A, m, D, s) ==
              (if |c.path| < D && |s.nodes| + 1 < m then
                 var cs := Pushes(A, c.path, |s.nodes|, c.key, s.ord);
                 State(s.nodes + [c.path], s.parents + [c.par], rest + cs, s.ord + |cs|)
               else State(s.nodes + [c.path], s.parents + [c.par], rest, s.ord))
  {
    hide IsPath, KidsAt, Pushes;
    assert IsPath(A, s.cands[Least(s.cands)].path);
  }

  /** Half of a pop: the node is in the tree, its children not yet on the heap. */
  ghost predicate Half(A: Anchor, m: nat, D: nat, s: State, v: Vars, p: Pend) {
    && s.cands != [] && Paths(A, s) && |s.nodes| + 1 < m && |v.side| == m && v.ord == s.ord
    && var k := Least(s.cands);
       var c := s.cands[k];
       && |c.path| < D && c.path != []
       && TreeMirrors(A, s.nodes + [c.path], s.parents + [c.par], v)
       && HeapMirrors(A, s.nodes + [c.path], Without(s.cands, k), v)
       && p == Pend(NodeAt(A, c.path).tok, NodeAt(A, c.path).h, |c.path|, v.anc[|s.nodes|], |s.nodes|, c.key)
  }

  lemma {:induction false} Taken(A: Anchor, m: nat, D: nat, s: State, v0: Vars, v: Vars, k: nat)
    requires k < |v0.heap| && Mirrors(A, m, s, v0) && s.cands != [] && k == Least(s.cands) && |s.nodes| < m &&
             Paths(A, s)
    requires var it := v0.heap[k];
             (it.par >= 0 ==> it.par < |v0.anc|) &&
             v == v0.(tokens := v0.tokens + [it.tok], parents := v0.parents + [it.par],
                      depths := v0.depths + [it.depth],
                      anc := v0.anc + [if it.par >= 0 then v0.anc[it.par] + [it.par] else []],
                      heap := v0.heap[..k] + v0.heap[k + 1..])
    ensures var c := s.cands[k];
            c.path != [] && TreeMirrors(A, s.nodes + [c.path], s.parents + [c.par], v) &&
            HeapMirrors(A, s.nodes + [c.path], Without(s.cands, k), v) && v.heap == Without(v0.heap, k)
    ensures v0.heap[k] == ItemOf(A, s.cands[k])
  {
    hide IsPath, NodeAt, Least;
    var c, nodes := s.cands[k], s.nodes + [s.cands[k].path];
    assert CandMirrors(A, s.nodes, c, v0, k);
    forall i | 0 <= i < |nodes| ensures NodeMirrors(A, nodes[i], v, i) {
      if i < |s.nodes| {
        assert NodeMirrors(A, s.nodes[i], v0, i);
      } else {
        TakenNode(A, m, s, v0, c, k);
      }
    }
    WithoutIs(s.cands, k);
    WithoutIs(v0.heap, k);
    forall j | 0 <= j < |Without(s.cands, k)| ensures CandMirrors(A, nodes, Without(s.cands, k)[j], v, j) {
      var i := if j < k then j else j + 1;
      assert CandMirrors(A, s.nodes, s.cands[i], v0, i);
    }
  }

  /** The popped node's ancestors are its parent's and the parent. */
  lemma {:induction false} TakenNode(A: Anchor, m: nat, s: State, v0: Vars, c: Cand, k: nat)
    requires Mirrors(A, m, s, v0) && k < |v0.heap| && CandMirrors(A, s.nodes, c, v0, k) && |s.nodes| < m
    ensures c.par >= 0 ==> c.par < |v0.anc|
    ensures var anc := if c.par >= 0 then v0.anc[c.par] + [c.par] else [];
            Within(anc, |s.nodes|) && Within(anc, |v0.side|) && Picked(v0.side, anc) == NodeAt(A, Up(c.path)).chain
  {
    hide IsPath;
    if c.par >= 0 {
      assert NodeMirrors(A, s.nodes[c.par], v0, c.par);
      var up := Up(c.path);
      assert s.nodes[c.par] == up;
      assert Picked(v0.side, v0.anc[c.par] + [c.par]) == Picked(v0.side, v0.anc[c.par]) + [v0.side[c.par]];
      ChainStep(A, up);
    } else {
      assert Up(c.path) == [];
      RootPath(A);
    }
  }

  lemma {:induction false} ChainStep(A: Anchor, path: Path)
    requires IsPath(A, path) && path != []
    ensures IsPath(A, Up(path)) && NodeAt(A, path).chain == NodeAt(A, Up(path)).chain + [Own(A, path)]
    ensures Own(A, path) == A.head.project(NodeAt(A, path).tok, NodeAt(A, path).h, Pos(A, |path|))
  {
  }

  // ----- expanding and feeding back -----

  /** The pend of a half-popped node names exactly that node: its expansion is the abstract one. */
  lemma {:induction false} HalfExpands(A: Anchor, m: nat, D: nat, s: State, v: Vars, p: Pend)
    requires Half(A, m, D, s, v, p)
    ensures Within(p.anc, |v.side|) && 0 <= p.own < |v.side| && |p.anc| < D
    ensures var c := s.cands[Least(s.cands)];
            var slot := A.head.project(p.tok, p.h, Pos(A, p.depth));
            IsPath(A, c.path) && c.path != [] && slot == Own(A, c.path) &&
            A.head.forward(A.ctx + Picked(v.side, p.anc) + [slot], p.tok, p.h, Pos(A, p.depth))
            == Expanded(A, NodeAt(A, c.path), |c.path|)
  {
    hide IsPath, NodeAt, Least;
    var c := s.cands[Least(s.cands)];
    assert NodeMirrors(A, (s.nodes + [c.path])[|s.nodes|], v, |s.nodes|);
    ChainStep(A, c.path);
    var up := NodeAt(A, Up(c.path)).chain;
    assert A.ctx + up + [Own(A, c.path)] == A.ctx + (up + [Own(A, c.path)]);
  }

  /** Push an expansion's children onto the heap. */
  method Feed(v0: Vars, p: Pend, e: Expansion) returns (v: Vars)
    ensures v == v0.(heap := v0.heap + Pushed(p, e, v0.ord), ord := v0.ord + |e.kids|)
  {
    v := v0;
    for r := 0 to |e.kids|
      invariant v == v0.(heap := v0.heap + Pushed(p, e, v0.ord)[..r], ord := v0.ord + r)
    {
      var kid := e.kids[r];
      v := v.(heap := v.heap + [Item(p.key - kid.logp, v.ord, kid.token, p.own, p.depth + 1, e.carry)],
              ord := v.ord + 1);
    }
    assert Pushed(p, e, v0.ord)[..|e.kids|] == Pushed(p, e, v0.ord);
  }

  function Pushed(p: Pend, e: Expansion, ord: nat): (items: seq<Item>)
    ensures |items| == |e.kids|
    ensures forall r :: 0 <= r < |items| ==>
                          items[r] == Item(p.key - e.kids[r].logp, ord + r, e.kids[r].token, p.own, p.depth + 1,
                                           e.carry)
  {
    seq(|e.kids|, r requires 0 <= r < |e.kids| =>
      Item(p.key - e.kids[r].logp, ord + r, e.kids[r].token, p.own, p.depth + 1, e.carry))
  }

  /** The children pushed are the abstract ones. */
  lemma {:induction false} PushedMirror(A: Anchor, path: Path, par: int, key: real, ord: nat, r: nat)
    requires IsPath(A, path) && r < |KidsAt(A, path)|
    ensures var c := Pushes(A, path, par, key, ord)[r];
            var p := Pend(NodeAt(A, path).tok, NodeAt(A, path).h, |path|, [], par, key);
            IsPath(A, c.path) && Up(c.path) == path &&
            |KidsAt(A, path)| == |Expanded(A, NodeAt(A, path), |path|).kids| &&
            ItemOf(A, c) == Pushed(p, Expanded(A, NodeAt(A, path), |path|), ord)[r]
  {
    var c := Pushes(A, path, par, key, ord)[r];
    assert Up(c.path) == path && c.path[|c.path| - 1] == r;
  }

  lemma {:induction false} FeedStep(A: Anchor, m: nat, D: nat, s: State, v0: Vars, p: Pend, e: Expansion,
                                    side: seq<Slot>, v: Vars)
    requires Half(A, m, D, s, v0, p) && 0 <= p.own < |v0.side|
    requires var c := s.cands[Least(s.cands)];
             IsPath(A, c.path) && e == Expanded(A, NodeAt(A, c.path), |c.path|) &&
             side == v0.side[p.own := Own(A, c.path)]
    requires v == v0.(heap := v0.heap + Pushed(p, e, v0.ord), ord := v0.ord + |e.kids|, side := side)
    ensures Mirrors(A, m, Pop(A, m, D, s), v)
  {
    hide IsPath, NodeAt, Least, Pop, Pushes, KidsAt, Expanded;
    var k := Least(s.cands);
    var c, rest := s.cands[k], Without(s.cands, k);
    var nodes := s.nodes + [c.path];
    PopIs(A, m, D, s);
    KidCount(A, c.path);
    forall i | 0 <= i < |nodes| ensures NodeMirrors(A, nodes[i], v, i) {
      assert NodeMirrors(A, nodes[i], v0, i);
      assert Picked(v.side, v.anc[i]) == Picked(v0.side, v0.anc[i]);
    }
    var cs := Pushes(A, c.path, |s.nodes|, c.key, s.ord);
    forall j | 0 <= j < |rest + cs| ensures CandMirrors(A, nodes, (rest + cs)[j], v, j) {
      if j < |rest| {
        assert CandMirrors(A, nodes, rest[j], v0, j);
        RestKeepsSlot(A, m, D, s, v0, p, rest[j], j);
      } else {
        PushedMirror(A, c.path, |s.nodes|, c.key, s.ord, j - |rest|);
        assert nodes[|s.nodes|] == c.path;
      }
    }
  }

  lemma {:induction false} KidCount(A: Anchor, path: Path)
    requires IsPath(A, path)
    ensures |KidsAt(A, path)| == |Expanded(A, NodeAt(A, path), |path|).kids|
  {
  }

  /** Writing the new node's slot disturbs no other candidate's parent. */
  lemma {:induction false} RestKeepsSlot(A: Anchor, m: nat, D: nat, s: State, v: Vars, p: Pend, d: Cand, j: nat)
    requires Half(A, m, D, s, v, p) && j < |v.heap|
    requires var c := s.cands[Least(s.cands)]; CandMirrors(A, s.nodes + [c.path], d, v, j)
    ensures d.par == p.own ==> v.side[p.own] == Own(A, s.cands[Least(s.cands)].path)
  {
    hide IsPath, NodeAt, Least;
  }

  lemma {:induction false} RootPath(A: Anchor)
    ensures IsPath(A, []) && NodeAt(A, []) == Node(A.tok, A.h, [])
  {
  }

  function EmptyVars(m: nat): Vars {
    Vars([], [], [], [], 0, [], seq(m, i => []))
  }

  function AnchorPend(A: Anchor): Pend {
    Pend(A.tok, A.h, 0, [], -1, 0.0)
  }

  /** The anchor's expansion seeds the heap. */
  lemma {:induction false} Seeded(A: Anchor, m: nat, e: Expansion, v: Vars)
    requires e == A.head.forward(A.ctx + [] + [], A.tok, A.h, Pos(A, 0))
    requires v == EmptyVars(m).(heap := [] + Pushed(AnchorPend(A), e, 0), ord := 0 + |e.kids|)
    ensures Mirrors(A, m, Seed(A), v) && Paths(A, Seed(A))
  {
    hide IsPath, NodeAt, Pushes, KidsAt, Expanded;
    var s := Seed(A);
    RootPath(A);
    AnchorExpanded(A);
    KidCount(A, []);
    KidPaths(A, [], -1, 0.0, 0);
    forall j {:trigger s.cands[j]} | 0 <= j < |s.cands| ensures CandMirrors(A, s.nodes, s.cands[j], v, j) {
      PushedMirror(A, [], -1, 0.0, 0, j);
      assert s.cands[j] in s.cands;
    }
  }

  lemma {:induction false} AnchorExpanded(A: Anchor)
    ensures A.head.forward(A.ctx + [] + [], A.tok, A.h, Pos(A, 0)) == Expanded(A, Node(A.tok, A.h, []), 0)
  {
    assert A.ctx + [] + [] == A.ctx + [];
  }

  /** The tree reported for a finished search. */
  ghost predicate Reports(A: Anchor, s: State, t: DraftedTree) {
    && |t.tokens| == |t.depths| == |s.nodes| && t.parents == s.parents
    && forall i :: 0 <= i < |s.nodes| ==> NodeReports(A, s.nodes[i], t.tokens[i], t.depths[i])
  }

  predicate NodeReports(A: Anchor, path: Path, tok: Token, depth: nat) {
    IsPath(A, path) && tok == NodeAt(A, path).tok && depth == |path|
  }

  /** A search has one report: equal searches give equal tokens, parents, depths and order. */
  lemma {:induction false} ReportUnique(A: Anchor, s: State, t: DraftedTree, u: DraftedTree)
    requires Reports(A, s, t) && Reports(A, s, u)
    ensures t == u
  {
    hide IsPath, NodeAt;
    forall i | 0 <= i < |s.nodes| ensures t.tokens[i] == u.tokens[i] && t.depths[i] == u.depths[i] {
      assert NodeReports(A, s.nodes[i], t.tokens[i], t.depths[i]);
      assert NodeReports(A, s.nodes[i], u.tokens[i], u.depths[i]);
    }
    assert t.tokens == u.tokens && t.depths == u.depths;
  }

  lemma {:induction false} MirrorReports(A: Anchor, m: nat, s: State, v: Vars)
    requires Mirrors(A, m, s, v)
    ensures Reports(A, s, DraftedTree(v.tokens, v.parents, v.depths))
  {
    hide IsPath, NodeAt;
    forall i | 0 <= i < |s.nodes| ensures NodeReports(A, s.nodes[i], v.tokens[i], v.depths[i]) {
      assert NodeMirrors(A, s.nodes[i], v, i);
    }
  }

  /** A search that has run as far as it goes. */
  lemma {:induction false} SearchEnds(A: Anchor, m: nat, D: nat, s: State)
    requires Paths(A, s) && (s.cands == [] || |s.nodes| >= m)
    ensures Search(A, m, D, s) == s
  {
  }

  lemma {:induction false} SearchSteps(A: Anchor, m: nat, D: nat, s: State)
    requires Paths(A, s) && s.cands != [] && |s.nodes| < m
    ensures Paths(A, Pop(A, m, D, s)) && Search(A, m, D, Pop(A, m, D, s)) == Search(A, m, D, s)
  {
    PathsPop(A, m, D, s);
  }

  /** The best-first tree over the committed context, which is left as it was. */
  method ProposeTree(d: EagleDrafter, m: int, maxDepth: nat) returns (t: DraftedTree)
    requires d.Valid()
    modifies d, d.kbuf
    ensures d.Valid() && d.Context() == old(d.Context()) && (d.kbuf == old(d.kbuf) || fresh(d.kbuf))
    ensures if d.ctxLen == 0 || m <= 0 then t == DraftedTree([], [], [])
            else Reports(d.Context(), Best(d.Context(), m, Max(1, maxDepth)), t)
  {
    hide IsPath, NodeAt, Pop, Mirrors, Half, Search, Reports, Paths;
    if d.ctxLen == 0 || m <= 0 {
      return DraftedTree([], [], []);
    }
    d.EnsureCap(d.ctxLen + maxDepth + 1);
    ghost var A, D := d.Context(), Max(1, maxDepth);
    var p0 := Pend(d.lastTok, d.lastH, 0, [], -1, 0.0);
    var v := EmptyVars(m);
    var e, side := d.Expand(p0, v.side);
    assert Picked(v.side, []) == [];
    v := Feed(v, p0, e);
    Seeded(A, m, e, v);
    ghost var s := Seed(A);
    MirrorFacts(A, m, s, v);
    while v.heap != [] && |v.tokens| < m
      invariant d.Valid() && d.Context() == A && d.ctxLen + maxDepth + 1 <= d.kbuf.Length &&
                (d.kbuf == old(d.kbuf) || fresh(d.kbuf))
      invariant Mirrors(A, m, s, v) && Paths(A, s) && Search(A, m, D, s) == Best(A, m, D)
      invariant |v.heap| == |s.cands| && |v.tokens| == |s.nodes| <= m
      decreases m - |v.tokens|
    {
      var p;
      MirrorPaths(A, m, s, v);
      v, p := TakeBest(v, m, maxDepth, A, s);
      SearchSteps(A, m, D, s);
      PopDepth(A, m, maxDepth, s);
      if p.Some? {
        v, e := ExpandPend(d, A, m, maxDepth, s, v, p.value);
      }
      s := Pop(A, m, D, s);
      MirrorFacts(A, m, s, v);
    }
    SearchEnds(A, m, D, s);
    MirrorReports(A, m, s, v);
    t := DraftedTree(v.tokens, v.parents, v.depths);
  }

  lemma {:induction false} MirrorFacts(A: Anchor, m: nat, s: State, v: Vars)
    requires Mirrors(A, m, s, v)
    ensures |v.heap| == |s.cands| && |v.tokens| == |s.nodes|
  {
  }

  lemma {:induction false} MirrorPaths(A: Anchor, m: nat, s: State, v: Vars)
    requires Mirrors(A, m, s, v)
    ensures forall k :: 0 <= k < |s.cands| ==> s.cands[k].path != []
  {
    hide IsPath, NodeAt;
    forall k | 0 <= k < |s.cands| ensures s.cands[k].path != [] {
      assert CandMirrors(A, s.nodes, s.cands[k], v, k);
    }
  }

  /** Depths start at one, so a depth limit of zero is a limit of one. */
  lemma {:induction false} PopDepth(A: Anchor, m: nat, maxDepth: nat, s: State)
    requires s.cands != [] && Paths(A, s) && forall k :: 0 <= k < |s.cands| ==> s.cands[k].path != []
    ensures Pop(A, m, maxDepth, s) == Pop(A, m, Max(1, maxDepth), s)
  {
    hide IsPath, Pushes, Least;
  }

  /** Expand a popped node and feed its children back. */
  method ExpandPend(d: EagleDrafter, ghost A: Anchor, ghost m: nat, ghost D: nat, ghost s: State, v0: Vars, p: Pend)
    returns (v: Vars, e: Expansion)
    requires d.Valid() && d.Context() == A && Half(A, m, D, s, v0, p) && d.ctxLen + D <= d.kbuf.Length
    modifies d.kbuf
    ensures d.Valid() && d.Context() == A
    ensures Mirrors(A, m, Pop(A, m, D, s), v) && |v.tokens| == |v0.tokens|
  {
    hide IsPath, NodeAt, Pop, Mirrors, Half;
    HalfExpands(A, m, D, s, v0, p);
    var side;
    e, side := d.Expand(p, v0.side);
    v := Feed(v0, p, e);
    v := v.(side := side);
    FeedStep(A, m, D, s, v0, p, e, side, v);
  }
}
